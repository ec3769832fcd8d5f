# soa-tourism: the tour engine, blog rules and user rules in Dafny

This project models three parts of the soa-tourism services.

- **The tour service's commerce and execution engine**, made of the Go handlers over the
  Mongo repository. It covers:
  - the shopping cart (add, remove, get, checkout), whose total is kept equal to the sum
    of its item prices;
  - purchase tokens, which entitle a tourist to a tour's key points and to starting it;
  - the position store, with one upserted position per tourist;
  - the tour-execution state machine (start, proximity poll, complete, abandon), with an
    append-only list of completed key points.
- **The blog service's rules.**
  - Likes are unique per (blog, user).
  - The stored `LikeCount` and `CommentCount` are kept in step with the like and comment
    collections.
  - Commenting requires following the blog's author.
  - Nobody can follow themselves.
  - The feed has a default page size and always includes the caller's own blogs.
- **The auth service's user rules.**
  - Registration accepts only the "guide" and "tourist" roles, with a unique username and
    a unique email.
  - A blocked account cannot log in.
  - Listing users and blocking are for admins only, and an admin cannot be blocked.

Each Mongo collection is a field of a store class. The tour repository is
`TourRepository.TourRepository`. The blog service is `BlogService.BlogGrpcService`, and
the auth service is `AuthService.AuthGrpcService`. Each handler is a method that reads,
checks and then mutates in one step. Its `ensures` states every failure branch and the
exact new state.

The repository keeps two invariants:
- `Valid`: keys agree with records, ids are fresh and unique, and no stored id is the nil
  ObjectID.
- `Consistent`: every cart is well formed, there is at most one active execution per
  (tourist, tour), and no execution completes a key point twice.

The handlers preserve both. Pure specifications sit in their own modules:
- `CartSpec`: what a cart means;
- `EntitlementSpec`: tokens as entitlements;
- `ExecutionSpec`: the proximity step and the execution collection;
- `BlogSpec`: counts, likes and the feed.

The loops of the handlers are methods with invariants, each proved against those
specifications:
- the duplicate scan and the rebuild of the cart;
- the token loop of checkout;
- the two nested scans of the proximity check;
- the copy of visible key points.

Things the services get from outside are parameters:
- the clock: `now`;
- the haversine distance: `DistanceFn`;
- the follow graph: `FollowsFn`;
- BCrypt and the token service: `HashFn`, `VerifyFn` and `TokenFn`;
- the store inserts that fail during checkout: the `failed` set of item positions.

Fresh ObjectIDs and uuids come from counters. `ObjectIDFromHex` is modelled exactly: it
accepts 24 hexadecimal digits in either case. Every id the service writes with `.Hex()`
parses back to itself.

Where the code and the service's own description disagree, the model follows the code:
- Adding a tour that is already in the cart is rejected.
- Checkout of an empty cart fails.
- Checkout does not check what the tourist already owns. It empties the cart even when
  some token inserts fail.
- `GetCart`, `RemoveFromCart` and `Checkout` never report a missing cart. They create an
  empty one.
- Starting an execution uses the coordinates in the request, not the stored position.
- The proximity check marks the first uncompleted key point within 50 m in store order,
  not the nearest. It ignores the execution's status.
- Completing and abandoning check only ownership. They do not check the current status
  or how many key points were completed, so an ended execution can be ended again.
- `UpdatePosition` does not validate coordinates.
- `LikeBlog` and `UnlikeBlog` insert and delete likes even for a blog id that matches no
  blog. They then report a count of 0.

## Model

| member | source | states |
|---|---|---|
| ObjectIds.ObjectIDFromHex | services/tour-service/internal/handlers/tour_handler.go:428-434 | an id parses exactly when it is 24 hexadecimal digits, and then denotes a 96-bit value |
| ObjectIds.ParseHexDigits | services/tour-service/internal/handlers/tour_handler.go:589 | reading back the k lower-case hex digits written for a value below 16^k gives the value |
| ObjectIds.HexRoundTrip | services/tour-service/internal/handlers/tour_handler.go:589 | every id written with `.Hex()` is accepted by `ObjectIDFromHex` and denotes the same id |
| CartSpec.EmptyCart | services/tour-service/internal/repository/tour_repository.go:182-186 | a new cart has no items, total 0 and is well formed |
| CartSpec.SumAppend | services/tour-service/internal/handlers/tour_handler.go:473-478 | the sum of prices of two item lists laid end to end is the sum of their sums |
| CartSpec.WithoutAppend | services/tour-service/internal/handlers/tour_handler.go:514-521 | filtering out a tour distributes over concatenation, which is what the item-by-item rebuild relies on |
| CartSpec.WithoutMembers | services/tour-service/internal/handlers/tour_handler.go:516-521 | after removal an item is present exactly when it was present and belongs to another tour |
| CartSpec.WithoutAbsent | services/tour-service/internal/handlers/tour_handler.go:513-524 | removing a tour that is not in the cart leaves the items unchanged |
| CartSpec.WithoutDistinct | services/tour-service/internal/handlers/tour_handler.go:513-524 | removal keeps tours distinct and leaves the removed tour out of the cart |
| CartSpec.WithoutLowersTotal | services/tour-service/internal/handlers/tour_handler.go:513-524 | removing a tour that is in a cart with distinct tours lowers the sum by exactly that item's price |
| CartSpec.AddKeepsWellFormed | services/tour-service/internal/handlers/tour_handler.go:462-478 | appending a tour not yet in a well-formed cart and adding its price to the total keeps total = sum of prices and tours distinct |
| CartSpec.RemoveKeepsWellFormed | services/tour-service/internal/handlers/tour_handler.go:513-524 | rebuilding without a tour and recomputing the total keeps the cart well formed |
| EntitlementSpec.CountPositiveIffOwns | services/tour-service/internal/repository/tour_repository.go:234-240 | the count of tokens for a pair is positive exactly when a token for the pair exists |
| EntitlementSpec.OwnsAfterAppend | services/tour-service/internal/repository/tour_repository.go:224-232 | after tokens are appended, a pair is owned exactly when it was owned before or one of the new tokens is for it, so an entitlement is never lost |
| EntitlementSpec.PurchasedTours | services/tour-service/internal/handlers/tour_handler.go:575-593 | checkout buys at most one tour per item, and one per item when no insert fails |
| EntitlementSpec.PurchasedToursMembers | services/tour-service/internal/handlers/tour_handler.go:575-593 | a tour is bought exactly when some item of it had a successful insert |
| EntitlementSpec.PurchasedToursSnoc | services/tour-service/internal/handlers/tour_handler.go:575-593 | handling one more item extends the bought tours by its tour, unless its insert fails |
| EntitlementSpec.TourIdsOfAppend | services/tour-service/internal/handlers/tour_handler.go:588-592 | the tours of two runs of tokens are the tours of the first followed by those of the second |
| EntitlementSpec.IssuedToAppend | services/tour-service/internal/handlers/tour_handler.go:576-580 | two runs of tokens issued to the same tourist at the same time together form one such run |
| EntitlementSpec.IssuedToMembers | services/tour-service/internal/handlers/tour_handler.go:576-580 | every token of such a run belongs to that tourist and carries that purchase time |
| EntitlementSpec.OwnsIssued | services/tour-service/internal/handlers/tour_handler.go:575-593 | a tourist owns every tour among the tokens issued to them |
| ExecutionSpec.KeyPointsOf | services/tour-service/internal/repository/tour_repository.go:121-133 | exactly the stored key points of the tour: everything returned is stored and of that tour, and every stored key point of the tour is returned |
| ExecutionSpec.KeyPointsOfAppend | services/tour-service/internal/repository/tour_repository.go:121-133 | the query keeps store order: over two stretches of the collection it returns the first stretch's key points followed by the second's |
| ExecutionSpec.KeyPointsOfSnoc | services/tour-service/internal/repository/tour_repository.go:112-119 | a newly created key point comes last in its tour's list and changes no other tour's list |
| ExecutionSpec.FirstReached | services/tour-service/internal/handlers/tour_handler.go:698-719 | the chosen index is the first, in store order, of a key point that is not completed and lies within 50 m; none before it qualifies, and if none qualifies the result is None |
| ExecutionSpec.Poll | services/tour-service/internal/handlers/tour_handler.go:697-750 | one poll refreshes the last activity, changes nothing else but the completed list, and appends at most one key point: one that is not yet completed and is within 50 m; "not near" exactly when nothing is appended and then no key point qualifies; the key point marked is the first reached one in store order (`FirstReached`), and "near" exactly when one exists; distinct completions stay distinct |
| ExecutionSpec.PollingKeepsCompletionsUnique | services/tour-service/internal/handlers/tour_handler.go:697-737 | any sequence of polls keeps completions distinct, never alters earlier completions, adds at most one per poll, and leaves status, tourist and tour unchanged |
| ExecutionSpec.CompletedKeypointNotReported | services/tour-service/internal/handlers/tour_handler.go:700-710 | a completed key point is never reported again |
| ExecutionSpec.FindExecution | services/tour-service/internal/repository/tour_repository.go:258-265 | the first record with the id, or None exactly when no record has it |
| ExecutionSpec.FindActive | services/tour-service/internal/repository/tour_repository.go:277-289 | the first active execution of the tourist on the tour, or None exactly when there is none |
| ExecutionSpec.ActiveOf | services/tour-service/internal/repository/tour_repository.go:291-306 | exactly the tourist's active executions |
| ExecutionSpec.ReplaceKeepsSingleActive | services/tour-service/internal/repository/tour_repository.go:267-275 | replacing a record by a later state of the same run keeps at most one active execution per pair |
| ExecutionSpec.AppendKeepsSingleActive | services/tour-service/internal/handlers/tour_handler.go:628-648 | appending an active execution for a pair with none keeps at most one active execution per pair |
| ExecutionSpec.EndRun | services/tour-service/internal/handlers/tour_handler.go:762-786 | an unknown id fails with not found and a foreign execution with unauthorized, both changing nothing; the owner always succeeds, and that record alone gets the final status, the end time and the new last activity, keeping every other field (tour, start, completed key points), whatever its previous status |
| ExecutionSpec.EndRunKeepsInvariants | services/tour-service/internal/handlers/tour_handler.go:777-780 | ending a run keeps at most one active execution per pair and keeps completions distinct |
| ExecutionSpec.EndRunClosesPair | services/tour-service/internal/handlers/tour_handler.go:777-780 | the owner ending an active run succeeds, and afterwards no active execution of that pair remains, so the next start creates a new one |
| TourRepository.TourRepository.constructor | services/tour-service/internal/repository/tour_repository.go:23-32 | all collections start empty, and the store is valid and consistent; the first id handed out is 1, since the nil ObjectID is never stored |
| TourRepository.TourRepository.CreateTour | services/tour-service/internal/repository/tour_repository.go:36-48 | whatever the input, the stored tour is a draft with price 0 that is unpublished, under a fresh id |
| TourRepository.TourRepository.GetTourByID | services/tour-service/internal/repository/tour_repository.go:50-57 | the stored tour with the id, or None exactly when there is none; the nil ObjectID finds nothing |
| TourRepository.TourRepository.PublishTour | services/tour-service/internal/repository/tour_repository.go:96-108 | that tour becomes published with the given price and a publication time; the other tours and the key set are unchanged |
| TourRepository.TourRepository.CreateKeyPoint | services/tour-service/internal/repository/tour_repository.go:112-119 | appends the key point under a fresh id |
| TourRepository.TourRepository.GetKeyPointsByTourID | services/tour-service/internal/repository/tour_repository.go:121-133 | every stored key point of the tour and no other, as the query function returns them |
| TourRepository.TourRepository.UpsertPosition | services/tour-service/internal/repository/tour_repository.go:151-163 | afterwards the tourist's position is the given one stamped with the time, whether or not one existed; other tourists' positions are unchanged |
| TourRepository.TourRepository.GetPosition | services/tour-service/internal/repository/tour_repository.go:165-172 | the tourist's position, or None exactly when none is stored |
| TourRepository.TourRepository.GetOrCreateCart | services/tour-service/internal/repository/tour_repository.go:176-199 | the existing cart unchanged, or a new empty cart with total 0 stored for the tourist; there is one cart per tourist; well-formedness is kept |
| TourRepository.TourRepository.UpdateCart | services/tour-service/internal/repository/tour_repository.go:201-208 | replaces the tourist's cart; well-formed carts stay well formed |
| TourRepository.TourRepository.ClearCart | services/tour-service/internal/repository/tour_repository.go:210-220 | empties only that tourist's cart and sets its total to 0 |
| TourRepository.TourRepository.CreatePurchaseToken | services/tour-service/internal/repository/tour_repository.go:224-232 | appends exactly one token, with no ownership check, after which the pair is owned |
| TourRepository.TourRepository.HasPurchased | services/tour-service/internal/repository/tour_repository.go:234-240 | true exactly when a token for the pair exists |
| TourRepository.TourRepository.CreateExecution | services/tour-service/internal/repository/tour_repository.go:244-256 | appends an active execution with no completed key points; one active execution per pair is kept when the pair had none |
| TourRepository.TourRepository.GetExecution | services/tour-service/internal/repository/tour_repository.go:258-265 | the record with the id, or None exactly when no record has it |
| TourRepository.TourRepository.UpdateExecution | services/tour-service/internal/repository/tour_repository.go:267-275 | refreshes the last activity and replaces the record with the same id; the execution invariants are kept by a later state of the same run |
| TourRepository.TourRepository.GetActiveExecution | services/tour-service/internal/repository/tour_repository.go:277-289 | only an active execution of this tourist on this tour, or None exactly when there is none |
| TourRepository.TourRepository.GetExecutionsByTouristID | services/tour-service/internal/repository/tour_repository.go:291-306 | exactly the tourist's active executions |
| TourHandler.VisibleKeyPoints | services/tour-service/internal/handlers/tour_handler.go:262-270 | all key points to an entitled caller, otherwise only the first one, if there is any |
| TourHandler.ContainsTour | services/tour-service/internal/handlers/tour_handler.go:462-470 | the scan finds the tour exactly when it is in the cart |
| TourHandler.DropTour | services/tour-service/internal/handlers/tour_handler.go:513-524 | the rebuilt list is the other tours' items in order, and the new total is their sum |
| TourHandler.AlreadyCompleted | services/tour-service/internal/handlers/tour_handler.go:700-706 | the inner scan finds the key point exactly when it is completed |
| TourHandler.FirstReachedIndex | services/tour-service/internal/handlers/tour_handler.go:698-738 | the outer scan stops at the first uncompleted key point within 50 m, in store order |
| TourHandler.TourServiceHandler.constructor | services/tour-service/internal/handlers/tour_handler.go:22-26 | the handler works on a valid, consistent repository |
| TourHandler.TourServiceHandler.CreateTour | services/tour-service/internal/handlers/tour_handler.go:30-53 | stores the request's guide, name, description, difficulty and tags with the creation time as a draft tour with price 0 that is unpublished, under a fresh id |
| TourHandler.TourServiceHandler.PublishTour | services/tour-service/internal/handlers/tour_handler.go:134-176 | a bad id, an unknown tour or another guide's tour fails and changes nothing; otherwise the tour is published with the price |
| TourHandler.TourServiceHandler.GetKeyPoints | services/tour-service/internal/handlers/tour_handler.go:231-278 | a bad id fails; a caller with neither a token nor guide ownership sees at most the first key point, everyone else sees every stored key point of the tour, in store order; `isPurchased` reports token existence only |
| TourHandler.TourServiceHandler.UpdatePosition | services/tour-service/internal/handlers/tour_handler.go:375-401 | stores the tourist's position as given; other tourists' positions are unchanged |
| TourHandler.TourServiceHandler.GetCurrentPosition | services/tour-service/internal/handlers/tour_handler.go:403-423 | the stored position, or not found exactly when there is none |
| TourHandler.TourServiceHandler.CartBefore | services/tour-service/internal/handlers/tour_handler.go:453-460 | the cart a handler starts from is the tourist's and is well formed |
| TourHandler.TourServiceHandler.AddToCart | services/tour-service/internal/handlers/tour_handler.go:427-494 | a bad id, an unknown tour, an unpublished tour or a tour already in the cart fails, leaving the carts unchanged; otherwise one item with the tour's name and price is appended and the total rises by that price |
| TourHandler.TourServiceHandler.PutInCart | services/tour-service/internal/handlers/tour_handler.go:452-480 | a duplicate is refused without change; otherwise the item is appended and the total raised, and the cart stays well formed |
| TourHandler.TourServiceHandler.RemoveFromCart | services/tour-service/internal/handlers/tour_handler.go:496-539 | drops every item of the tour and keeps the others in order; the total is the sum of the remaining items, lowered by exactly the item's price when the tour was there; an absent tour still succeeds and leaves the items unchanged |
| TourHandler.TourServiceHandler.GetCart | services/tour-service/internal/handlers/tour_handler.go:541-555 | the tourist's cart, created empty when missing; its total is the sum of its prices |
| TourHandler.TourServiceHandler.IssueTokens | services/tour-service/internal/handlers/tour_handler.go:573-593 | appends one token per item whose insert does not fail, all for the tourist at the time, in cart order, and draws one uuid per item |
| TourHandler.TourServiceHandler.IssueOne | services/tour-service/internal/handlers/tour_handler.go:576-592 | one item: a fresh uuid, and one token for its tour unless its insert fails |
| TourHandler.TourServiceHandler.Checkout | services/tour-service/internal/handlers/tour_handler.go:557-606 | an empty cart fails and creates no token; otherwise at most one token per item, the tourist owns every tour whose insert succeeded, and the cart is left empty with total 0 |
| TourHandler.TourServiceHandler.StartTourExecution | services/tour-service/internal/handlers/tour_handler.go:610-662 | without a token it fails and creates nothing; an existing active execution is returned unchanged and no second one is created; otherwise exactly one new record is added: active, under the next id, with the request's coordinates, start time and last activity now, no end time and no completions; the id counter moves only then |
| TourHandler.TourServiceHandler.CheckProximity | services/tour-service/internal/handlers/tour_handler.go:664-751 | a bad id, an unknown execution or another tourist's execution fails and changes nothing; otherwise the stored execution becomes the result of one proximity poll |
| TourHandler.TourServiceHandler.EndExecution | services/tour-service/internal/handlers/tour_handler.go:770-786 | a bad id fails and changes nothing; otherwise the answer and the collection are those of ending the run |
| TourHandler.TourServiceHandler.CompleteTour | services/tour-service/internal/handlers/tour_handler.go:753-793 | ends the run as completed, checking only ownership |
| TourHandler.TourServiceHandler.AbandonTour | services/tour-service/internal/handlers/tour_handler.go:795-835 | ends the run as abandoned, checking only ownership |
| TourHandler.TourServiceHandler.GetExecution | services/tour-service/internal/handlers/tour_handler.go:837-866 | a bad id, an unknown execution or another tourist's execution fails; otherwise the stored record of the owner |
| BlogSpec.LikesOfConcat | services/blog-service/BlogService/BlogService/Services/BlogGrpcService.cs:281-287 | a blog's likes in two runs of likes are the sum of its likes in each |
| BlogSpec.CommentsOfConcat | services/blog-service/BlogService/BlogService/Services/BlogGrpcService.cs:199-205 | a blog's comments in two runs of comments are the sum of its comments in each |
| BlogSpec.LikesOfInsert | services/blog-service/BlogService/BlogService/Services/BlogGrpcService.cs:281-287 | inserting a like adds one like to its blog and none to any other |
| BlogSpec.LikesOfDelete | services/blog-service/BlogService/BlogService/Services/BlogGrpcService.cs:315-332 | deleting a like removes one like from its blog and none from any other |
| BlogSpec.CommentsOfInsert | services/blog-service/BlogService/BlogService/Services/BlogGrpcService.cs:199-205 | inserting a comment adds one comment to its blog and none to any other |
| BlogSpec.FindLike | services/blog-service/BlogService/BlogService/Services/BlogGrpcService.cs:261-263 | the first like of the pair, or None exactly when no like matches |
| BlogSpec.FindLikeIffLiked | services/blog-service/BlogService/BlogService/Services/BlogGrpcService.cs:261-265 | a like is found exactly when the user has liked the blog |
| BlogSpec.InsertKeepsLikesUnique | services/blog-service/BlogService/BlogService/Services/BlogGrpcService.cs:261-281 | a like for a pair nobody has liked keeps one like per pair and makes the pair liked |
| BlogSpec.DeleteUnlikes | services/blog-service/BlogService/BlogService/Services/BlogGrpcService.cs:315-317 | with one like per pair, deleting the pair's like leaves it unliked and the likes unique |
| BlogSpec.FollowUser | services/blog-service/BlogService/BlogService/Services/BlogGrpcService.cs:357-385 | refused as self-follow exactly when follower and followee are the same; succeeds exactly when they differ and the graph accepts the follow |
| BlogSpec.Followed | services/blog-service/BlogService/BlogService/Services/BlogGrpcService.cs:357-385 | over a run of follow requests, the pairs the graph accepted: each was requested and accepted by the graph |
| BlogSpec.FollowedNeverSelf | services/blog-service/BlogService/BlogService/Services/BlogGrpcService.cs:361-368 | however many follow requests arrive, the graph never receives a self-follow |
| BlogSpec.FollowUserOutcome | services/blog-service/BlogService/BlogService/Services/BlogGrpcService.cs:362-385 | following oneself fails whatever the graph would answer; any other pair succeeds exactly when the graph accepts it |
| BlogSpec.PageSize | services/blog-service/BlogService/BlogService/Services/BlogGrpcService.cs:88 | the page size is the requested limit when positive, else 20 |
| BlogSpec.Audience | services/blog-service/BlogService/BlogService/Services/BlogGrpcService.cs:80-82 | the feed's authors are the followed users and the caller |
| BlogSpec.ByAuthors | services/blog-service/BlogService/BlogService/Services/BlogGrpcService.cs:84-86 | exactly the blogs of the given authors |
| BlogSpec.ByAuthorsAppend | services/blog-service/BlogService/BlogService/Services/BlogGrpcService.cs:84-86 | the author filter keeps collection order: over two stretches it is the first stretch's matches followed by the second's |
| BlogSpec.ByAuthorsNewestFirst | services/blog-service/BlogService/BlogService/Services/BlogGrpcService.cs:83-85 | filtering a newest-first collection by author leaves it newest first |
| BlogSpec.Matching | services/blog-service/BlogService/BlogService/Services/BlogGrpcService.cs:76-98 | the blogs a feed draws from: for a signed-in caller exactly the blogs of followed users and their own, for an anonymous caller every blog; order is kept |
| BlogSpec.GetBlogs | services/blog-service/BlogService/BlogService/Services/BlogGrpcService.cs:71-100 | the window of the matching blogs that starts `skip` blogs in and holds a page, or fewer at the end; a signed-in caller's matching blogs are those of followed users and their own, an anonymous caller's are all; a newest-first collection gives a newest-first page |
| BlogSpec.OwnBlogsOnFirstPage | services/blog-service/BlogService/BlogService/Services/BlogGrpcService.cs:77-89 | the caller's own blogs are on the first page of a feed that fits a page |
| BlogService.BlogGrpcService.constructor | services/blog-service/BlogService/BlogService/Services/BlogGrpcService.cs:17-29 | empty collections, where the counts trivially agree; the first comment or like id is 1, not the nil ObjectID |
| BlogService.BlogGrpcService.CreateBlog | services/blog-service/BlogService/BlogService/Services/BlogGrpcService.cs:33-69 | the new blog has like count 0 and comment count 0, and the counts stay in step |
| BlogService.BlogGrpcService.GetBlogById | services/blog-service/BlogService/BlogService/Services/BlogGrpcService.cs:120-153 | the stored blog, or not found exactly when there is none |
| BlogService.BlogGrpcService.AddComment | services/blog-service/BlogService/BlogService/Services/BlogGrpcService.cs:157-225 | an unknown blog, or a non-author who does not follow the author, fails and changes nothing; otherwise exactly one comment is inserted and the blog's comment count rises by 1; counts stay in step |
| BlogService.BlogGrpcService.LikeBlog | services/blog-service/BlogService/BlogService/Services/BlogGrpcService.cs:256-309 | an existing like fails and changes nothing; otherwise one like is inserted and an existing blog's count rises by 1; the answer is the new count, which equals the blog's likes; one like per pair is kept |
| BlogService.BlogGrpcService.UnlikeBlog | services/blog-service/BlogService/BlogService/Services/BlogGrpcService.cs:311-354 | without a like it fails and changes nothing; otherwise the like is deleted and an existing blog's count falls by 1; afterwards the pair is unliked and counts stay in step |
| AuthService.Find | services/auth-service/AuthService/AuthService/Services/AuthGrpcService.cs:39-41 | the first user the filter matches, or None exactly when none does |
| AuthService.LoginOutcome | services/auth-service/AuthService/AuthService/Services/AuthGrpcService.cs:99-156 | an unknown username fails; success needs an unblocked account of that name whose password verifies |
| AuthService.BlockedCannotLogin | services/auth-service/AuthService/AuthService/Services/AuthGrpcService.cs:116-123 | a blocked account is refused as blocked whatever the password |
| AuthService.RegisteredCanLogin | services/auth-service/AuthService/AuthService/Services/AuthGrpcService.cs:67-77 | a newly registered, unblocked account logs in with a password that verifies against its hash |
| AuthService.AuthGrpcService.constructor | services/auth-service/AuthService/AuthService/Services/AuthGrpcService.cs:14-22 | a store of existing accounts with unique ids, usernames and emails; new ids start above the nil ObjectID |
| AuthService.AuthGrpcService.Register | services/auth-service/AuthService/AuthService/Services/AuthGrpcService.cs:24-97 | a role other than guide or tourist fails, then a taken username, then a taken email, each changing nothing; otherwise exactly one unblocked user with that role is added; uniqueness is kept and the set of admins never changes |
| AuthService.AuthGrpcService.Login | services/auth-service/AuthService/AuthService/Services/AuthGrpcService.cs:99-156 | the answer is the login outcome on the store |
| AuthService.AuthGrpcService.UpdateProfile | services/auth-service/AuthService/AuthService/Services/AuthGrpcService.cs:193-236 | an unknown user fails; otherwise only that user's five profile fields change, and no account's id, username, email, role or blocked flag changes |
| AuthService.AuthGrpcService.GetAllUsers | services/auth-service/AuthService/AuthService/Services/AuthGrpcService.cs:238-278 | fails exactly when the caller is not an existing admin; otherwise every account |
| AuthService.AuthGrpcService.BlockUser | services/auth-service/AuthService/AuthService/Services/AuthGrpcService.cs:280-340 | a non-admin caller, an unknown target or an admin target fails and changes nothing; otherwise only the target's blocked flag is set; admins are never changed |

## Left out

- `calculateDistance` (haversine): floating-point trigonometry. It is the parameter
  `DistanceFn`; only the comparison with 50 m is modelled.
- Prices: `float64` in the service, whole cents (`int`) here. The sum invariant is exact,
  and float rounding is not modelled.
- Store and driver errors: every store call succeeds. The exceptions are the checkout's
  token inserts, whose failures the `failed` set chooses. A driver error on any other call
  (for example a failed `UpdateCart`, or a malformed blog or user id string) is not
  modelled.
- Concurrency: each handler is one atomic step. The unlocked read-modify-write races are
  not modelled.
- `time.Now()`, `DateTime.UtcNow` and `uuid.New()`: an abstract `now` parameter and
  counters. Timestamps are not ordered across calls. There is one `now` per call, so
  readings within a call are merged: every checkout token carries the same purchase time
  (`IssuedTo`), and a proximity hit's completion time equals the new last activity.
- Protobuf mapping (`map*ToProto`, `MapBlogToProto`, `MapCommentToProto`,
  `MapToUserProfile`) and log messages: presentation only. Answers carry the records
  themselves.
- The key-point handlers `AddKeyPoint`, `UpdateKeyPoint` and `DeleteKeyPoint`, and the
  tour listings `GetTours`, `GetMyTours` and `GetTourById`: plain CRUD and listings outside
  the commerce and execution engine. The repository's `UpdateTour`, `GetToursByGuideID`,
  `GetPublishedTours`, `UpdateKeyPoint` and `DeleteKeyPoint` are left out for the same
  reason.
- `GetComments`, `UnfollowUser`, `IsFollowing`, `GetFollowers`, `GetFollowing` and
  `GetFollowRecommendations`: reads of, or writes to, the follow graph, which lives in
  Neo4j. FollowerService.cs is not part of this model; the graph is the oracle `FollowsFn`.
- `GetProfile`, `ValidateToken` and `GetUserById`: read-only lookups and token checks by
  the token service, which is not part of this model.
- BCrypt hashing and verification, and JWT generation: the parameters `HashFn`,
  `VerifyFn` and `TokenFn`.
- BlogSpec.GetBlogs: takes the collection already sorted newest first, because
  `SortByDescending(CreatedAt)` is the database's job. `skip` is a natural number; a
  negative skip is not modelled.
- BlogService.BlogGrpcService.CreateBlog: takes the new blog's ObjectId as an argument
  that no blog, comment or like uses yet, instead of generating it.
- The blog counts are unbounded integers. `LikeCount` and `CommentCount` are 32-bit in the
  service, and their wrap-around is not modelled.
- TourRepository.TourRepository.UpdateCart: matches the stored cart by tourist, and
  requires that the stored cart has the same id. The service matches by `_id`. The
  handlers only pass a cart they just fetched for that tourist, so the two agree there.
- The gateway controllers and DTOs, the gRPC clients, the frontend and the wiring
  (`main.go`, `Program.cs`, settings): forwarding, UI and configuration. The frontend's
  "all key points done before completing" and "position set before starting" gates are
  not enforced by the server, so they are not in the model.
