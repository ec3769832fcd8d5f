/** The tour service's store (services/tour-service/internal/repository/tour_repository.go):
    each Mongo collection is a field of one repository object. Collections whose
    natural order matters to a caller (key points, tokens, executions) are sequences in
    insertion order; the tour, position and cart collections are keyed. */
module TourRepository {
  import opened Wrappers
  import opened ObjectIds
  import opened TourModels
  import opened CartSpec
  import opened EntitlementSpec
  import opened ExecutionSpec

  class TourRepository {
    var tours: map<ObjectId, Tour>
    var keypoints: seq<KeyPoint>
    /** One position per tourist: the collection is upserted by `touristId`. */
    var positions: map<UserId, Position>
    /** Carts found by `touristId`; each keeps its own `_id` for `UpdateCart`. */
    var carts: map<UserId, ShoppingCart>
    var tokens: seq<PurchaseToken>
    var executions: seq<TourExecution>
    /** Source of fresh ObjectIDs. */
    var nextId: nat

    /** Structural facts of the store: keys agree with records, ids are fresh and unique,
        and no stored id is the nil ObjectID. */
    ghost predicate Valid()
      reads this`tours, this`positions, this`carts, this`executions, this`nextId
    {
      && NilId < nextId
      && (forall id :: id in tours ==> tours[id].id == id && NilId < id < nextId)
      && (forall t :: t in positions ==> positions[t].touristId == t)
      && (forall t :: t in carts ==> carts[t].touristId == t && NilId < carts[t].id < nextId)
      && DistinctIds(executions)
      && (forall k :: 0 <= k < |executions| ==> NilId < executions[k].id < nextId)
    }

    /** The business invariant the handlers keep (the repository itself does not check it):
        every cart's total is the sum of its prices and lists each tour once, there is at
        most one active execution per (tourist, tour), and no execution completes a key
        point twice. */
    ghost predicate Consistent()
      reads this`carts, this`executions
    {
      CartsConsistent() && ExecutionsConsistent()
    }

    ghost predicate CartsConsistent()
      reads this`carts
    {
      forall t :: t in carts ==> WellFormed(carts[t])
    }

    ghost predicate ExecutionsConsistent()
      reads this`executions
    {
      SingleActive(executions) && AllCompletionsDistinct(executions)
    }

    constructor ()
      ensures Valid() && Consistent()
      ensures tours == map[] && keypoints == [] && positions == map[] && carts == map[]
      ensures tokens == [] && executions == [] && nextId == NilId + 1
    {
      tours, keypoints, positions, carts := map[], [], map[], map[];
      tokens, executions, nextId := [], [], NilId + 1;
    }

    // ============ Tour operations ============

    /** Whatever the caller filled in, a new tour is a draft, priced 0 and unpublished. */
    method CreateTour(tour: Tour, now: Time) returns (stored: Tour)
      requires Valid()
      modifies this`tours, this`nextId
      ensures Valid()
      ensures stored.status == Draft && stored.price == 0 && !stored.isPublished
      ensures stored == tour.(id := old(nextId), createdAt := now, status := Draft, price := 0, isPublished := false)
      ensures stored.id !in old(tours) && tours == old(tours)[stored.id := stored]
      ensures nextId == old(nextId) + 1
    {
      stored := tour.(id := nextId, createdAt := now, status := Draft, price := 0, isPublished := false);
      tours := tours[nextId := stored];
      nextId := nextId + 1;
    }

    method GetTourByID(id: ObjectId) returns (r: Option<Tour>)
      ensures r.Some? <==> id in tours
      ensures Valid() && id == NilId ==> r.None?
      ensures r.Some? ==> r.value == tours[id]
    {
      r := if id in tours then Some(tours[id]) else None;
    }

    /** Sets the publication fields of one tour; an unknown id matches nothing. */
    method PublishTour(id: ObjectId, price: Money, now: Time)
      requires Valid()
      modifies this`tours
      ensures Valid()
      ensures tours.Keys == old(tours).Keys
      ensures id in tours ==>
        tours[id] == old(tours)[id].(isPublished := true, status := Published, price := price, publishedAt := Some(now))
      ensures forall other :: other in tours && other != id ==> tours[other] == old(tours)[other]
    {
      if id in tours {
        tours := tours[id := tours[id].(isPublished := true, status := Published, price := price, publishedAt := Some(now))];
      }
    }

    // ============ KeyPoint operations ============

    method CreateKeyPoint(kp: KeyPoint) returns (stored: KeyPoint)
      requires Valid()
      modifies this`keypoints, this`nextId
      ensures Valid()
      ensures stored == kp.(id := old(nextId)) && keypoints == old(keypoints) + [stored]
      ensures nextId == old(nextId) + 1
    {
      stored := kp.(id := nextId);
      keypoints := keypoints + [stored];
      nextId := nextId + 1;
    }

    /** Every stored key point of the tour and no other, in store order
        (`KeyPointsOfAppend`). */
    method GetKeyPointsByTourID(tourId: ObjectId) returns (kps: seq<KeyPoint>)
      ensures forall kp :: kp in kps <==> kp in keypoints && kp.tourId == tourId
      ensures kps == KeyPointsOf(keypoints, tourId)
    {
      kps := KeyPointsOf(keypoints, tourId);
    }

    // ============ Position operations ============

    /** Upsert by tourist: afterwards the tourist's position is `p` stamped with `now`,
        whether or not one existed; nobody else's position changes. */
    method UpsertPosition(p: Position, now: Time) returns (stored: Position)
      requires Valid()
      modifies this`positions
      ensures Valid()
      ensures stored == p.(updatedAt := now)
      ensures positions == old(positions)[p.touristId := stored]
    {
      stored := p.(updatedAt := now);
      positions := positions[p.touristId := stored];
    }

    method GetPosition(touristId: UserId) returns (r: Option<Position>)
      ensures r.Some? <==> touristId in positions
      ensures r.Some? ==> r.value == positions[touristId]
    {
      r := if touristId in positions then Some(positions[touristId]) else None;
    }

    // ============ Shopping cart operations ============

    /** The tourist's cart; a missing one is created empty, so a tourist never has two. */
    method GetOrCreateCart(touristId: UserId) returns (cart: ShoppingCart)
      requires Valid()
      modifies this`carts, this`nextId
      ensures Valid()
      ensures touristId in old(carts) ==> cart == old(carts)[touristId] && carts == old(carts) && nextId == old(nextId)
      ensures touristId !in old(carts) ==>
        cart == EmptyCart(old(nextId), touristId) && carts == old(carts)[touristId := cart] && nextId == old(nextId) + 1
      ensures touristId in carts && carts[touristId] == cart && cart.touristId == touristId
      ensures old(CartsConsistent()) ==> CartsConsistent() && WellFormed(cart)
    {
      if touristId in carts {
        cart := carts[touristId];
      } else {
        cart := EmptyCart(nextId, touristId);
        carts := carts[touristId := cart];
        nextId := nextId + 1;
      }
    }

    /** Replaces the stored cart that has this cart's id. The handlers only pass a cart
        they obtained from `GetOrCreateCart` for the same tourist. */
    method UpdateCart(cart: ShoppingCart)
      requires Valid()
      requires cart.touristId in carts && carts[cart.touristId].id == cart.id
      modifies this`carts
      ensures Valid()
      ensures carts == old(carts)[cart.touristId := cart]
      ensures old(CartsConsistent()) && WellFormed(cart) ==> CartsConsistent()
    {
      carts := carts[cart.touristId := cart];
    }

    /** Empties the tourist's cart and zeroes its total; other carts are untouched. */
    method ClearCart(touristId: UserId)
      requires Valid()
      modifies this`carts
      ensures Valid()
      ensures touristId in old(carts) ==>
        carts == old(carts)[touristId := old(carts)[touristId].(items := [], totalPrice := 0)]
      ensures touristId !in old(carts) ==> carts == old(carts)
      ensures old(CartsConsistent()) ==> CartsConsistent()
    {
      if touristId in carts {
        carts := carts[touristId := carts[touristId].(items := [], totalPrice := 0)];
      }
    }

    // ============ Purchase token operations ============

    /** Inserts a token; nothing checks whether the pair is already owned. */
    method CreatePurchaseToken(touristId: UserId, tourId: ObjectId, token: nat, now: Time) returns (stored: PurchaseToken)
      requires Valid()
      modifies this`tokens, this`nextId
      ensures Valid()
      ensures stored == PurchaseToken(old(nextId), touristId, tourId, token, now)
      ensures tokens == old(tokens) + [stored]
      ensures nextId == old(nextId) + 1
      ensures Owns(tokens, touristId, tourId)
    {
      stored := PurchaseToken(nextId, touristId, tourId, token, now);
      tokens := tokens + [stored];
      nextId := nextId + 1;
      assert tokens[|tokens| - 1] == stored;
    }

    /** True exactly when some token for (tourist, tour) exists. */
    method HasPurchased(touristId: UserId, tourId: ObjectId) returns (b: bool)
      ensures b <==> exists k :: 0 <= k < |tokens| && tokens[k].touristId == touristId && tokens[k].tourId == tourId
    {
      b := CountTokens(tokens, touristId, tourId) > 0;
      CountPositiveIffOwns(tokens, touristId, tourId);
    }

    // ============ Tour execution operations ============

    /** A new execution is active, with no completed key points. */
    method CreateExecution(touristId: UserId, tourId: ObjectId, startLatitude: real, startLongitude: real, now: Time)
      returns (stored: TourExecution)
      requires Valid()
      modifies this`executions, this`nextId
      ensures Valid()
      ensures stored.status == Active && stored.completedKeypoints == []
      ensures stored == TourExecution(old(nextId), touristId, tourId, Active, now, None, now, startLatitude, startLongitude, [])
      ensures executions == old(executions) + [stored]
      ensures nextId == old(nextId) + 1
      ensures old(ExecutionsConsistent()) && FindActive(old(executions), touristId, tourId, 0).None? ==> ExecutionsConsistent()
    {
      stored := TourExecution(nextId, touristId, tourId, Active, now, None, now, startLatitude, startLongitude, []);
      if ExecutionsConsistent() && FindActive(executions, touristId, tourId, 0).None? {
        AppendKeepsSingleActive(executions, stored);
      }
      executions := executions + [stored];
      nextId := nextId + 1;
    }

    method GetExecution(id: ObjectId) returns (r: Option<TourExecution>)
      ensures r.None? <==> forall k :: 0 <= k < |executions| ==> executions[k].id != id
      ensures r.Some? ==> r.value.id == id && r.value in executions
      ensures var i := FindExecution(executions, id, 0); i.Some? ==> r == Some(executions[i.value])
    {
      var i := FindExecution(executions, id, 0);
      r := if i.Some? then Some(executions[i.value]) else None;
    }

    /** Refreshes `lastActivity` and replaces the record with the same id. */
    method UpdateExecution(e: TourExecution, now: Time) returns (stored: TourExecution)
      requires Valid()
      modifies this`executions
      ensures Valid()
      ensures stored == e.(lastActivity := now)
      ensures var i := FindExecution(old(executions), e.id, 0);
        executions == if i.Some? then old(executions)[i.value := stored] else old(executions)
      ensures var i := FindExecution(old(executions), e.id, 0);
        (old(ExecutionsConsistent()) && DistinctCompleted(e.completedKeypoints) &&
         (i.Some? ==> SameRun(old(executions)[i.value], e))) ==> ExecutionsConsistent()
    {
      stored := e.(lastActivity := now);
      var i := FindExecution(executions, e.id, 0);
      if i.Some? {
        if ExecutionsConsistent() && SameRun(executions[i.value], e) {
          ReplaceKeepsSingleActive(executions, i.value, stored);
        }
        executions := executions[i.value := stored];
      }
    }

    /** Only an active execution of this tourist on this tour is returned. */
    method GetActiveExecution(touristId: UserId, tourId: ObjectId) returns (r: Option<TourExecution>)
      ensures r.Some? ==> IsActiveFor(r.value, touristId, tourId) && r.value in executions
      ensures r.None? <==> forall k :: 0 <= k < |executions| ==> !IsActiveFor(executions[k], touristId, tourId)
      ensures var i := FindActive(executions, touristId, tourId, 0); i.Some? ==> r == Some(executions[i.value])
    {
      var i := FindActive(executions, touristId, tourId, 0);
      r := if i.Some? then Some(executions[i.value]) else None;
    }

    /** Only the tourist's active executions, all of them. */
    method GetExecutionsByTouristID(touristId: UserId) returns (r: seq<TourExecution>)
      ensures forall e :: e in r <==> e in executions && e.touristId == touristId && e.status == Active
    {
      r := ActiveOf(executions, touristId);
    }
  }
}
