/** The tour service's request handlers (services/tour-service/internal/handlers/tour_handler.go)
    over the repository: cart, checkout, key-point access, position and the execution
    state machine. Every handler is one sequential step; a request id that is not a
    valid ObjectID is rejected before the store is touched. */
module TourHandler {
  import opened Wrappers
  import opened ObjectIds
  import opened TourModels
  import opened CartSpec
  import opened EntitlementSpec
  import opened ExecutionSpec
  import opened TourRepository

  /** The answer of `GetKeyPoints`: the visible key points and whether a token exists. */
  datatype KeyPointsView = KeyPointsView(keypoints: seq<KeyPoint>, isPurchased: bool)

  /** The key points `GetKeyPoints` hands out: all of them to an entitled caller, and
      otherwise only the first one, if there is any. */
  method VisibleKeyPoints(keypoints: seq<KeyPoint>, entitled: bool) returns (visible: seq<KeyPoint>)
    ensures entitled ==> visible == keypoints
    ensures !entitled ==> |visible| == (if keypoints == [] then 0 else 1) && visible == keypoints[..|visible|]
  {
    visible := [];
    if !entitled && |keypoints| > 0 {
      visible := visible + [keypoints[0]];
    } else {
      var i := 0;
      while i < |keypoints|
        invariant 0 <= i <= |keypoints|
        invariant visible == keypoints[..i]
      {
        visible := visible + [keypoints[i]];
        i := i + 1;
      }
    }
  }

  /** The duplicate scan of `AddToCart`. */
  method ContainsTour(items: seq<CartItem>, tourId: ObjectId) returns (found: bool)
    ensures found <==> InCart(items, tourId)
  {
    var i := 0;
    while i < |items|
      invariant 0 <= i <= |items|
      invariant forall k :: 0 <= k < i ==> items[k].tourId != tourId
    {
      if items[i].tourId == tourId {
        return true;
      }
      i := i + 1;
    }
    found := false;
  }

  /** The rebuild of `RemoveFromCart`: the items of other tours, in order, and the sum of
      their prices. */
  method DropTour(items: seq<CartItem>, tourId: ObjectId) returns (kept: seq<CartItem>, total: Money)
    ensures kept == Without(items, tourId) && total == SumPrices(kept)
    ensures forall x :: x in kept <==> x in items && x.tourId != tourId
  {
    kept, total := [], 0;
    var i := 0;
    while i < |items|
      invariant 0 <= i <= |items|
      invariant kept == Without(items[..i], tourId)
      invariant total == SumPrices(kept)
    {
      var item := items[i];
      assert items[..i + 1] == items[..i] + [item];
      WithoutAppend(items[..i], [item], tourId);
      if item.tourId != tourId {
        SumAppend(kept, [item]);
        kept := kept + [item];
        total := total + item.price;
      }
      i := i + 1;
    }
    assert items[..|items|] == items;
    WithoutMembers(items, tourId);
  }

  /** The inner scan of `CheckProximity`: is the key point among the completed ones? */
  method AlreadyCompleted(done: seq<CompletedKeypoint>, keypointId: ObjectId) returns (found: bool)
    ensures found <==> IsCompleted(done, keypointId)
  {
    var c := 0;
    while c < |done|
      invariant 0 <= c <= |done|
      invariant forall m :: 0 <= m < c ==> done[m].keypointId != keypointId
    {
      if done[c].keypointId == keypointId {
        return true;
      }
      c := c + 1;
    }
    found := false;
  }

  /** The outer scan of `CheckProximity`: the index of the first key point, in the given
      order, that is not completed and lies within the threshold. */
  method FirstReachedIndex(keypoints: seq<KeyPoint>, done: seq<CompletedKeypoint>, latitude: real, longitude: real,
                           distance: DistanceFn) returns (hit: Option<nat>)
    ensures hit.Some? ==> hit.value < |keypoints| && Reached(keypoints[hit.value], done, latitude, longitude, distance)
    ensures forall j :: 0 <= j < (if hit.Some? then hit.value else |keypoints|) ==>
              !Reached(keypoints[j], done, latitude, longitude, distance)
    ensures hit == FirstReached(keypoints, done, latitude, longitude, distance, 0)
  {
    var i := 0;
    while i < |keypoints|
      invariant 0 <= i <= |keypoints|
      invariant forall j :: 0 <= j < i ==> !Reached(keypoints[j], done, latitude, longitude, distance)
      invariant FirstReached(keypoints, done, latitude, longitude, distance, 0)
             == FirstReached(keypoints, done, latitude, longitude, distance, i)
    {
      var kp := keypoints[i];
      var completed := AlreadyCompleted(done, kp.id);
      if !completed && distance(latitude, longitude, kp.latitude, kp.longitude) <= ProximityThreshold {
        return Some(i);
      }
      i := i + 1;
    }
    hit := None;
  }

  class TourServiceHandler {
    const repo: TourRepository
    /** Source of the fresh values `uuid.New()` yields for purchase tokens. */
    var uuidCounter: nat

    ghost predicate Valid()
      reads repo
    {
      repo.Valid() && repo.Consistent()
    }

    constructor (repo: TourRepository)
      requires repo.Valid() && repo.Consistent()
      ensures Valid() && this.repo == repo && uuidCounter == 0
    {
      this.repo := repo;
      uuidCounter := 0;
    }

    // ============ Tours ============

    method CreateTour(guideId: UserId, name: string, description: string, difficulty: string,
                      tags: seq<string>, now: Time) returns (r: Result<Tour, TourError>)
      requires Valid()
      modifies repo`tours, repo`nextId
      ensures Valid()
      ensures r.Success? && r.value.id !in old(repo.tours) && repo.tours == old(repo.tours)[r.value.id := r.value]
      ensures r.value == Tour(old(repo.nextId), guideId, name, description, difficulty, tags, Draft, 0, false, None, now)
      ensures repo.nextId == old(repo.nextId) + 1
      ensures r.value.status == Draft && r.value.price == 0 && !r.value.isPublished
    {
      var tour := Tour(0, guideId, name, description, difficulty, tags, Draft, 0, false, None, 0);
      var stored := repo.CreateTour(tour, now);
      r := Success(stored);
    }

    /** Only the tour's guide may publish it; publishing sets the price. */
    method PublishTour(tourIdHex: string, guideId: UserId, price: Money, now: Time) returns (r: Result<Tour, TourError>)
      requires Valid()
      modifies repo`tours
      ensures Valid()
      ensures ObjectIDFromHex(tourIdHex).None? ==> r == Failure(InvalidId) && repo.tours == old(repo.tours)
      ensures ObjectIDFromHex(tourIdHex).Some? ==>
        var id := ObjectIDFromHex(tourIdHex).value;
        if id !in old(repo.tours) then r == Failure(TourNotFound) && repo.tours == old(repo.tours)
        else if old(repo.tours)[id].guideId != guideId then r == Failure(Unauthorized) && repo.tours == old(repo.tours)
        else
          && r.Success? && r.value.isPublished && r.value.status == Published && r.value.price == price
          && r.value == old(repo.tours)[id].(isPublished := true, status := Published, price := price, publishedAt := Some(now))
          && repo.tours == old(repo.tours)[id := r.value]
    {
      var parsed := ObjectIDFromHex(tourIdHex);
      if parsed.None? {
        return Failure(InvalidId);
      }
      var id := parsed.value;
      var tour := repo.GetTourByID(id);
      if tour.None? {
        return Failure(TourNotFound);
      }
      if tour.value.guideId != guideId {
        return Failure(Unauthorized);
      }
      repo.PublishTour(id, price, now);
      var updated := repo.GetTourByID(id);
      r := Success(updated.value);
    }

    // ============ Key points ============

    /** Without a token and without being the tour's guide, a user sees at most the first
        key point; otherwise all of them. `isPurchased` reports the token only. */
    method GetKeyPoints(userId: UserId, tourIdHex: string) returns (r: Result<KeyPointsView, TourError>)
      ensures ObjectIDFromHex(tourIdHex).None? <==> r == Failure(InvalidId)
      ensures r.Success? ==>
        var id := ObjectIDFromHex(tourIdHex).value;
        var all := KeyPointsOf(repo.keypoints, id);
        var isOwner := userId != "" && id in repo.tours && repo.tours[id].guideId == userId;
        && r.value.isPurchased == (userId != "" && Owns(repo.tokens, userId, id))
        && ((r.value.isPurchased || isOwner) ==> r.value.keypoints == all)
        && ((r.value.isPurchased || isOwner) ==>
              forall kp :: kp in r.value.keypoints <==> kp in repo.keypoints && kp.tourId == id)
        && (!(r.value.isPurchased || isOwner) ==>
              |r.value.keypoints| == (if all == [] then 0 else 1) && r.value.keypoints == all[..|r.value.keypoints|])
    {
      var parsed := ObjectIDFromHex(tourIdHex);
      if parsed.None? {
        return Failure(InvalidId);
      }
      var id := parsed.value;
      var keypoints := repo.GetKeyPointsByTourID(id);
      var tour := repo.GetTourByID(id);
      var isPurchased, isOwner := false, false;
      if userId != "" {
        isPurchased := repo.HasPurchased(userId, id);
        if tour.Some? {
          isOwner := tour.value.guideId == userId;
        }
      }
      var visible := VisibleKeyPoints(keypoints, isPurchased || isOwner);
      r := Success(KeyPointsView(visible, isPurchased));
    }

    // ============ Position simulator ============

    /** Stores the tourist's position as given; coordinates are not validated. */
    method UpdatePosition(touristId: UserId, latitude: real, longitude: real, now: Time) returns (r: Result<Position, TourError>)
      requires Valid()
      modifies repo`positions
      ensures Valid()
      ensures r == Success(Position(touristId, latitude, longitude, now))
      ensures repo.positions == old(repo.positions)[touristId := r.value]
    {
      var stored := repo.UpsertPosition(Position(touristId, latitude, longitude, 0), now);
      r := Success(stored);
    }

    method GetCurrentPosition(touristId: UserId) returns (r: Result<Position, TourError>)
      requires Valid()
      ensures touristId !in repo.positions <==> r == Failure(PositionNotFound)
      ensures r.Success? ==> r.value == repo.positions[touristId] && r.value.touristId == touristId
    {
      var p := repo.GetPosition(touristId);
      if p.None? {
        return Failure(PositionNotFound);
      }
      r := Success(p.value);
    }

    // ============ Shopping cart ============

    /** The tourist's cart before a cart handler runs (`GetOrCreateCart` makes an empty one). */
    ghost function CartBefore(touristId: UserId): (c: ShoppingCart)
      reads repo
      requires Valid()
      ensures WellFormed(c) && c.touristId == touristId
    {
      if touristId in repo.carts then repo.carts[touristId] else EmptyCart(repo.nextId, touristId)
    }

    /** Fails, changing nothing, for a bad id, an unknown or unpublished tour, or a tour
        already in the cart; otherwise appends one item that snapshots the tour's name and
        price and raises the total by that price. */
    method AddToCart(touristId: UserId, tourIdHex: string) returns (r: Result<ShoppingCart, TourError>)
      requires Valid()
      modifies repo`carts, repo`nextId
      ensures Valid()
      ensures r.Failure? ==> repo.carts == old(repo.carts) && repo.nextId == old(repo.nextId)
      ensures ObjectIDFromHex(tourIdHex).None? ==> r == Failure(InvalidId)
      ensures ObjectIDFromHex(tourIdHex).Some? ==>
        var id := ObjectIDFromHex(tourIdHex).value;
        var before := old(CartBefore(touristId));
        if id !in repo.tours then r == Failure(TourNotFound)
        else if !repo.tours[id].isPublished then r == Failure(NotPublished)
        else if InCart(before.items, id) then r == Failure(AlreadyInCart)
        else
          var tour := repo.tours[id];
          && r.Success?
          && r.value.items == before.items + [CartItem(id, tour.name, tour.price)]
          && r.value.totalPrice == before.totalPrice + tour.price
          && r.value.id == before.id && r.value.touristId == touristId
          && repo.carts == old(repo.carts)[touristId := r.value]
    {
      var parsed := ObjectIDFromHex(tourIdHex);
      if parsed.None? {
        return Failure(InvalidId);
      }
      var id := parsed.value;
      var tour := repo.GetTourByID(id);
      if tour.None? {
        return Failure(TourNotFound);
      }
      if !tour.value.isPublished {
        return Failure(NotPublished);
      }
      r := PutInCart(touristId, CartItem(id, tour.value.name, tour.value.price));
    }

    /** The cart half of `AddToCart`: a tour already in the cart is refused; otherwise the
        item is appended and its price added to the total. */
    method PutInCart(touristId: UserId, item: CartItem) returns (r: Result<ShoppingCart, TourError>)
      requires Valid()
      modifies repo`carts, repo`nextId
      ensures Valid()
      ensures var before := old(CartBefore(touristId));
        if InCart(before.items, item.tourId) then
          r == Failure(AlreadyInCart) && repo.carts == old(repo.carts) && repo.nextId == old(repo.nextId)
        else
          && r == Success(before.(items := before.items + [item], totalPrice := before.totalPrice + item.price))
          && repo.carts == old(repo.carts)[touristId := r.value]
    {
      var cart := repo.GetOrCreateCart(touristId);
      var duplicate := ContainsTour(cart.items, item.tourId);
      if duplicate {
        return Failure(AlreadyInCart);
      }
      AddKeepsWellFormed(cart, item);
      cart := cart.(items := cart.items + [item], totalPrice := cart.totalPrice + item.price);
      repo.UpdateCart(cart);
      r := Success(cart);
    }

    /** Drops every item of the tour, keeps the others in order, and recomputes the total
        from the remaining items; removing a tour that is not in the cart still succeeds. */
    method RemoveFromCart(touristId: UserId, tourIdHex: string) returns (r: Result<ShoppingCart, TourError>)
      requires Valid()
      modifies repo`carts, repo`nextId
      ensures Valid()
      ensures ObjectIDFromHex(tourIdHex).None? ==>
        r == Failure(InvalidId) && repo.carts == old(repo.carts) && repo.nextId == old(repo.nextId)
      ensures ObjectIDFromHex(tourIdHex).Some? ==>
        var id := ObjectIDFromHex(tourIdHex).value;
        var before := old(CartBefore(touristId));
        && r.Success?
        && r.value.items == Without(before.items, id)
        && r.value.totalPrice == SumPrices(r.value.items)
        && !InCart(r.value.items, id)
        && (!InCart(before.items, id) ==> r.value.items == before.items)
        && (forall k :: 0 <= k < |before.items| && before.items[k].tourId == id ==>
              r.value.totalPrice == before.totalPrice - before.items[k].price)
        && r.value.id == before.id && r.value.touristId == touristId
        && repo.carts == old(repo.carts)[touristId := r.value]
    {
      var parsed := ObjectIDFromHex(tourIdHex);
      if parsed.None? {
        return Failure(InvalidId);
      }
      var id := parsed.value;
      var cart := repo.GetOrCreateCart(touristId);
      var newItems, newTotal := DropTour(cart.items, id);
      RemoveKeepsWellFormed(cart, id);
      WithoutDistinct(cart.items, id);
      if !InCart(cart.items, id) {
        WithoutAbsent(cart.items, id);
      }
      forall k | 0 <= k < |cart.items| && cart.items[k].tourId == id
        ensures newTotal == cart.totalPrice - cart.items[k].price
      {
        WithoutLowersTotal(cart.items, k);
      }
      cart := cart.(items := newItems, totalPrice := newTotal);
      repo.UpdateCart(cart);
      r := Success(cart);
    }

    /** Never "not found": a missing cart is created empty. */
    method GetCart(touristId: UserId) returns (r: Result<ShoppingCart, TourError>)
      requires Valid()
      modifies repo`carts, repo`nextId
      ensures Valid()
      ensures r == Success(old(CartBefore(touristId))) && r.value.totalPrice == SumPrices(r.value.items)
      ensures repo.carts == old(repo.carts)[touristId := r.value]
    {
      var cart := repo.GetOrCreateCart(touristId);
      r := Success(cart);
    }

    /** The insert loop of `Checkout`: one token per item, each with a fresh uuid drawn
        whether or not its insert succeeds; the inserts at the positions in `failed` fail
        and are skipped. */
    method IssueTokens(touristId: UserId, items: seq<CartItem>, failed: set<nat>, now: Time)
      returns (issued: seq<PurchaseToken>)
      requires repo.Valid()
      modifies this`uuidCounter, repo`tokens, repo`nextId
      ensures repo.Valid()
      ensures repo.tokens == old(repo.tokens) + issued
      ensures TourIdsOf(issued) == PurchasedTours(items, failed)
      ensures IssuedTo(issued, touristId, now)
      ensures uuidCounter == old(uuidCounter) + |items|
    {
      issued := [];
      ghost var tokens0, uuid0 := repo.tokens, uuidCounter;
      var i := 0;
      while i < |items|
        invariant 0 <= i <= |items|
        invariant repo.Valid()
        invariant TourIdsOf(issued) == PurchasedTours(items[..i], failed)
        invariant IssuedTo(issued, touristId, now)
        invariant repo.tokens == tokens0 + issued
        invariant uuidCounter == uuid0 + i
      {
        var added := IssueOne(touristId, items, i, failed, now);
        PurchasedToursSnoc(items, i, failed);
        TourIdsOfAppend(issued, added);
        IssuedToAppend(issued, added, touristId, now);
        issued := issued + added;
        i := i + 1;
      }
      assert items[..|items|] == items;
    }

    /** One step of the checkout loop: the token for item `i` with the next uuid, unless
        its insert fails. */
    method IssueOne(touristId: UserId, items: seq<CartItem>, i: nat, failed: set<nat>, now: Time)
      returns (added: seq<PurchaseToken>)
      requires repo.Valid() && i < |items|
      modifies this`uuidCounter, repo`tokens, repo`nextId
      ensures repo.Valid()
      ensures repo.tokens == old(repo.tokens) + added
      ensures TourIdsOf(added) == if i in failed then [] else [items[i].tourId]
      ensures IssuedTo(added, touristId, now)
      ensures uuidCounter == old(uuidCounter) + 1
    {
      var uuid := uuidCounter;
      uuidCounter := uuidCounter + 1;
      if i in failed {
        return [];
      }
      var stored := repo.CreatePurchaseToken(touristId, items[i].tourId, uuid, now);
      added := [stored];
      assert added[..0] == [];
    }

    /** An empty cart fails and buys nothing. Otherwise one token insert is attempted per
        item, with no check of what the tourist already owns; the inserts at the positions
        in `failed` fail and are skipped. The cart is emptied in every case. */
    method Checkout(touristId: UserId, failed: set<nat>, now: Time) returns (r: Result<seq<PurchaseToken>, TourError>)
      requires Valid()
      modifies this`uuidCounter, repo`carts, repo`tokens, repo`nextId
      ensures Valid()
      ensures var items := old(CartBefore(touristId)).items;
        if items == [] then
          && r == Failure(CartEmpty) && repo.tokens == old(repo.tokens)
          && repo.carts == old(repo.carts)[touristId := old(CartBefore(touristId))]
        else
          && r.Success?
          && |r.value| <= |items|
          && TourIdsOf(r.value) == PurchasedTours(items, failed)
          && (forall t :: t in r.value ==> t.touristId == touristId && t.purchasedAt == now)
          && repo.tokens == old(repo.tokens) + r.value
          && (forall k :: 0 <= k < |items| && k !in failed ==> Owns(repo.tokens, touristId, items[k].tourId))
          && repo.carts == old(repo.carts)[touristId := old(CartBefore(touristId)).(items := [], totalPrice := 0)]
    {
      var cart := repo.GetOrCreateCart(touristId);
      if |cart.items| == 0 {
        return Failure(CartEmpty);
      }
      ghost var tokens0 := repo.tokens;
      var issued := IssueTokens(touristId, cart.items, failed, now);
      IssuedToMembers(issued, touristId, now);
      PurchasedToursMembers(cart.items, failed);
      forall k | 0 <= k < |cart.items| && k !in failed
        ensures Owns(repo.tokens, touristId, cart.items[k].tourId)
      {
        var id := cart.items[k].tourId;
        OwnsIssued(issued, touristId, id);
        OwnsAfterAppend(tokens0, issued, touristId, id);
      }
      repo.ClearCart(touristId);
      r := Success(issued);
    }

    // ============ Tour execution ============

    /** A tourist without a token cannot start; a tourist with an active execution of the
        tour gets it back unchanged; otherwise exactly one new active execution is created
        at the start coordinates of the request (the stored position is not consulted). */
    method StartTourExecution(touristId: UserId, tourIdHex: string, startLatitude: real, startLongitude: real, now: Time)
      returns (r: Result<TourExecution, TourError>)
      requires Valid()
      modifies repo`executions, repo`nextId
      ensures Valid()
      ensures ObjectIDFromHex(tourIdHex).None? ==>
        r == Failure(InvalidId) && repo.executions == old(repo.executions) && repo.nextId == old(repo.nextId)
      ensures ObjectIDFromHex(tourIdHex).Some? ==>
        var id := ObjectIDFromHex(tourIdHex).value;
        var active := FindActive(old(repo.executions), touristId, id, 0);
        if !Owns(repo.tokens, touristId, id) then
          r == Failure(NotPurchased) && repo.executions == old(repo.executions) && repo.nextId == old(repo.nextId)
        else if active.Some? then
          && r == Success(old(repo.executions)[active.value])
          && repo.executions == old(repo.executions) && repo.nextId == old(repo.nextId)
        else
          && r == Success(TourExecution(old(repo.nextId), touristId, id, Active, now, None, now,
                                        startLatitude, startLongitude, []))
          && repo.executions == old(repo.executions) + [r.value]
          && repo.nextId == old(repo.nextId) + 1
      ensures r.Success? ==> IsActiveFor(r.value, touristId, ObjectIDFromHex(tourIdHex).value) && r.value in repo.executions
    {
      var parsed := ObjectIDFromHex(tourIdHex);
      if parsed.None? {
        return Failure(InvalidId);
      }
      var id := parsed.value;
      var purchased := repo.HasPurchased(touristId, id);
      if !purchased {
        return Failure(NotPurchased);
      }
      var existing := repo.GetActiveExecution(touristId, id);
      if existing.Some? {
        return Success(existing.value);
      }
      var execution := repo.CreateExecution(touristId, id, startLatitude, startLongitude, now);
      assert repo.executions[|repo.executions| - 1] == execution;
      r := Success(execution);
    }

    /** Marks the first not-yet-completed key point of the tour, in store order, that lies
        within 50 m, and refreshes the last activity. Only the owner may poll; the status of
        the execution is not checked. */
    method CheckProximity(executionIdHex: string, touristId: UserId, latitude: real, longitude: real,
                          now: Time, distance: DistanceFn) returns (r: Result<ProximityReport, TourError>)
      requires Valid()
      modifies repo`executions
      ensures Valid()
      ensures ObjectIDFromHex(executionIdHex).None? ==>
        r == Failure(InvalidId) && repo.executions == old(repo.executions)
      ensures ObjectIDFromHex(executionIdHex).Some? ==>
        var i := FindExecution(old(repo.executions), ObjectIDFromHex(executionIdHex).value, 0);
        if i.None? then r == Failure(ExecutionNotFound) && repo.executions == old(repo.executions)
        else
          var e := old(repo.executions)[i.value];
          if e.touristId != touristId then r == Failure(Unauthorized) && repo.executions == old(repo.executions)
          else
            var polled := Poll(e, KeyPointsOf(repo.keypoints, e.tourId), latitude, longitude, now, distance);
            r == Success(polled.1) && repo.executions == old(repo.executions)[i.value := polled.0]
    {
      var parsed := ObjectIDFromHex(executionIdHex);
      if parsed.None? {
        return Failure(InvalidId);
      }
      var found := repo.GetExecution(parsed.value);
      if found.None? {
        return Failure(ExecutionNotFound);
      }
      var execution := found.value;
      if execution.touristId != touristId {
        return Failure(Unauthorized);
      }
      var keypoints := repo.GetKeyPointsByTourID(execution.tourId);
      var hit := FirstReachedIndex(keypoints, execution.completedKeypoints, latitude, longitude, distance);
      ghost var polled := Poll(execution, keypoints, latitude, longitude, now, distance);
      if hit.Some? {
        var kp := keypoints[hit.value];
        var updated := execution.(completedKeypoints := execution.completedKeypoints + [CompletedKeypoint(kp.id, now)]);
        var stored := repo.UpdateExecution(updated, now);
        r := Success(Near(kp, distance(latitude, longitude, kp.latitude, kp.longitude)));
        assert polled == (stored, r.value);
      } else {
        var stored := repo.UpdateExecution(execution, now);
        r := Success(NotNear);
        assert polled == (stored, r.value);
      }
    }

    /** `CompleteTour` and `AbandonTour`: only the owner is checked, not the current status,
        so an ended execution can be ended again. */
    method EndExecution(executionIdHex: string, touristId: UserId, final: ExecutionStatus, now: Time)
      returns (r: Result<TourExecution, TourError>)
      requires Valid() && final != Active
      modifies repo`executions
      ensures Valid()
      ensures ObjectIDFromHex(executionIdHex).None? ==>
        r == Failure(InvalidId) && repo.executions == old(repo.executions)
      ensures ObjectIDFromHex(executionIdHex).Some? ==>
        (r, repo.executions) == EndRun(old(repo.executions), ObjectIDFromHex(executionIdHex).value, touristId, final, now)
    {
      var parsed := ObjectIDFromHex(executionIdHex);
      if parsed.None? {
        return Failure(InvalidId);
      }
      var found := repo.GetExecution(parsed.value);
      if found.None? {
        return Failure(ExecutionNotFound);
      }
      var execution := found.value;
      if execution.touristId != touristId {
        return Failure(Unauthorized);
      }
      execution := execution.(status := final, completedAt := Some(now));
      var stored := repo.UpdateExecution(execution, now);
      r := Success(stored);
    }

    method CompleteTour(executionIdHex: string, touristId: UserId, now: Time) returns (r: Result<TourExecution, TourError>)
      requires Valid()
      modifies repo`executions
      ensures Valid()
      ensures ObjectIDFromHex(executionIdHex).None? ==>
        r == Failure(InvalidId) && repo.executions == old(repo.executions)
      ensures ObjectIDFromHex(executionIdHex).Some? ==>
        (r, repo.executions) == EndRun(old(repo.executions), ObjectIDFromHex(executionIdHex).value, touristId, Completed, now)
    {
      r := EndExecution(executionIdHex, touristId, Completed, now);
    }

    method AbandonTour(executionIdHex: string, touristId: UserId, now: Time) returns (r: Result<TourExecution, TourError>)
      requires Valid()
      modifies repo`executions
      ensures Valid()
      ensures ObjectIDFromHex(executionIdHex).None? ==>
        r == Failure(InvalidId) && repo.executions == old(repo.executions)
      ensures ObjectIDFromHex(executionIdHex).Some? ==>
        (r, repo.executions) == EndRun(old(repo.executions), ObjectIDFromHex(executionIdHex).value, touristId, Abandoned, now)
    {
      r := EndExecution(executionIdHex, touristId, Abandoned, now);
    }

    /** Only the owner may read an execution. */
    method GetExecution(executionIdHex: string, touristId: UserId) returns (r: Result<TourExecution, TourError>)
      ensures ObjectIDFromHex(executionIdHex).None? <==> r == Failure(InvalidId)
      ensures ObjectIDFromHex(executionIdHex).Some? ==>
        var i := FindExecution(repo.executions, ObjectIDFromHex(executionIdHex).value, 0);
        if i.None? then r == Failure(ExecutionNotFound)
        else if repo.executions[i.value].touristId != touristId then r == Failure(Unauthorized)
        else r == Success(repo.executions[i.value])
      ensures r.Success? ==> r.value.touristId == touristId && r.value in repo.executions
    {
      var parsed := ObjectIDFromHex(executionIdHex);
      if parsed.None? {
        return Failure(InvalidId);
      }
      var found := repo.GetExecution(parsed.value);
      if found.None? {
        return Failure(ExecutionNotFound);
      }
      if found.value.touristId != touristId {
        return Failure(Unauthorized);
      }
      r := Success(found.value);
    }
  }
}
