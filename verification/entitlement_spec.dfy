/** Purchase tokens as entitlements: a tourist may see a tour's key points and start
    it exactly when the token store holds at least one token for the pair. */
module EntitlementSpec {
  import opened ObjectIds
  import opened TourModels

  predicate Owns(tokens: seq<PurchaseToken>, touristId: UserId, tourId: ObjectId) {
    exists k :: 0 <= k < |tokens| && tokens[k].touristId == touristId && tokens[k].tourId == tourId
  }

  /** `CountDocuments({touristId, tourId})` over the token collection. */
  function CountTokens(tokens: seq<PurchaseToken>, touristId: UserId, tourId: ObjectId): nat
  {
    if tokens == [] then 0
    else (if tokens[0].touristId == touristId && tokens[0].tourId == tourId then 1 else 0)
         + CountTokens(tokens[1..], touristId, tourId)
  }

  /** `HasPurchased` tests `count > 0`, which is exactly token existence. */
  lemma {:induction false} CountPositiveIffOwns(tokens: seq<PurchaseToken>, touristId: UserId, tourId: ObjectId)
    ensures CountTokens(tokens, touristId, tourId) > 0 <==> Owns(tokens, touristId, tourId)
  {
    if tokens != [] {
      CountPositiveIffOwns(tokens[1..], touristId, tourId);
      if Owns(tokens[1..], touristId, tourId) {
        var k :| 0 <= k < |tokens[1..]| && tokens[1..][k].touristId == touristId && tokens[1..][k].tourId == tourId;
        assert tokens[k + 1] == tokens[1..][k];
      }
      if Owns(tokens, touristId, tourId) && !(tokens[0].touristId == touristId && tokens[0].tourId == tourId) {
        var k :| 0 <= k < |tokens| && tokens[k].touristId == touristId && tokens[k].tourId == tourId;
        assert k > 0 && tokens[1..][k - 1] == tokens[k];
      }
    }
  }

  /** Tokens are only ever appended: an entitlement, once held, is never lost, and the
      appended tokens add exactly their own pairs. */
  lemma OwnsAfterAppend(tokens: seq<PurchaseToken>, added: seq<PurchaseToken>, touristId: UserId, tourId: ObjectId)
    ensures Owns(tokens + added, touristId, tourId) <==> Owns(tokens, touristId, tourId) || Owns(added, touristId, tourId)
  {
    var all := tokens + added;
    if Owns(all, touristId, tourId) {
      var k :| 0 <= k < |all| && all[k].touristId == touristId && all[k].tourId == tourId;
      if k >= |tokens| {
        assert added[k - |tokens|] == all[k];
      }
    }
    if Owns(added, touristId, tourId) {
      var k :| 0 <= k < |added| && added[k].touristId == touristId && added[k].tourId == tourId;
      assert all[|tokens| + k] == added[k];
    }
    if Owns(tokens, touristId, tourId) {
      var k :| 0 <= k < |tokens| && tokens[k].touristId == touristId && tokens[k].tourId == tourId;
      assert all[k] == tokens[k];
    }
  }

  /** The tours of the given tokens, in order. */
  function TourIdsOf(tokens: seq<PurchaseToken>): (r: seq<ObjectId>)
    ensures |r| == |tokens|
  {
    if tokens == [] then [] else TourIdsOf(tokens[..|tokens| - 1]) + [tokens[|tokens| - 1].tourId]
  }

  /** The tours a checkout buys: one per cart item whose token insert did not fail
      (`failed` holds the positions of the items whose insert failed), in cart order. */
  function PurchasedTours(items: seq<CartItem>, failed: set<nat>): (r: seq<ObjectId>)
    ensures |r| <= |items|
    ensures (forall k :: 0 <= k < |items| ==> k !in failed) ==> |r| == |items|
  {
    if items == [] then []
    else
      var n := |items| - 1;
      PurchasedTours(items[..n], failed) + (if n in failed then [] else [items[n].tourId])
  }

  /** The tours bought are exactly those of the items whose insert did not fail. */
  lemma {:induction false} PurchasedToursMembers(items: seq<CartItem>, failed: set<nat>)
    ensures forall k :: 0 <= k < |items| && k !in failed ==> items[k].tourId in PurchasedTours(items, failed)
    ensures forall id :: id in PurchasedTours(items, failed) ==>
              exists k :: 0 <= k < |items| && k !in failed && items[k].tourId == id
  {
    if items != [] {
      var n := |items| - 1;
      var init := items[..n];
      PurchasedToursMembers(init, failed);
      assert forall k :: 0 <= k < n ==> init[k] == items[k];
    }
  }

  /** Every token was issued to the tourist at the given time. */
  predicate IssuedTo(tokens: seq<PurchaseToken>, touristId: UserId, now: Time) {
    tokens == [] ||
    (var n := |tokens| - 1;
     IssuedTo(tokens[..n], touristId, now) && tokens[n].touristId == touristId && tokens[n].purchasedAt == now)
  }

  /** Two runs issued to the same tourist at the same time make one. */
  lemma {:induction false} IssuedToAppend(a: seq<PurchaseToken>, b: seq<PurchaseToken>, touristId: UserId, now: Time)
    requires IssuedTo(a, touristId, now) && IssuedTo(b, touristId, now)
    ensures IssuedTo(a + b, touristId, now)
  {
    if b != [] {
      var n := |b| - 1;
      IssuedToAppend(a, b[..n], touristId, now);
      assert (a + b)[..|a + b| - 1] == a + b[..n];
    } else {
      assert a + b == a;
    }
  }

  /** `IssuedTo` speaks of every token of the run. */
  lemma {:induction false} IssuedToMembers(tokens: seq<PurchaseToken>, touristId: UserId, now: Time)
    requires IssuedTo(tokens, touristId, now)
    ensures forall t :: t in tokens ==> t.touristId == touristId && t.purchasedAt == now
  {
    if tokens != [] {
      var n := |tokens| - 1;
      IssuedToMembers(tokens[..n], touristId, now);
      assert forall t :: t in tokens ==> t in tokens[..n] || t == tokens[n];
    }
  }

  /** The tours of two runs of tokens, one after the other. */
  lemma {:induction false} TourIdsOfAppend(a: seq<PurchaseToken>, b: seq<PurchaseToken>)
    ensures TourIdsOf(a + b) == TourIdsOf(a) + TourIdsOf(b)
  {
    if b != [] {
      var n := |b| - 1;
      TourIdsOfAppend(a, b[..n]);
      assert (a + b)[..|a + b| - 1] == a + b[..n];
    } else {
      assert a + b == a;
    }
  }

  /** Considering one more cart item extends the bought tours by it, unless its insert fails. */
  lemma PurchasedToursSnoc(items: seq<CartItem>, i: nat, failed: set<nat>)
    requires i < |items|
    ensures PurchasedTours(items[..i + 1], failed)
         == PurchasedTours(items[..i], failed) + (if i in failed then [] else [items[i].tourId])
  {
    assert items[..i + 1][..i] == items[..i];
  }

  /** A tourist owns every tour of the tokens issued to them. */
  lemma {:induction false} OwnsIssued(issued: seq<PurchaseToken>, touristId: UserId, tourId: ObjectId)
    requires forall t :: t in issued ==> t.touristId == touristId
    requires tourId in TourIdsOf(issued)
    ensures Owns(issued, touristId, tourId)
  {
    var n := |issued| - 1;
    if issued[n].tourId != tourId {
      var init := issued[..n];
      assert tourId in TourIdsOf(init);
      assert forall t :: t in init ==> t in issued;
      OwnsIssued(init, touristId, tourId);
      var k :| 0 <= k < |init| && init[k].touristId == touristId && init[k].tourId == tourId;
      assert issued[k] == init[k];
    } else {
      assert issued[n] in issued;
    }
  }
}
