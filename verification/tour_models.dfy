/** The records of the tour service (services/tour-service/internal/models/tour.go).
    Prices are `float64` in the service; here they are whole cents. Coordinates are reals. */
module TourModels {
  import opened Wrappers
  import opened ObjectIds

  type UserId = string
  /** An abstract timestamp standing for `time.Now()`. */
  type Time = nat
  /** A price in cents. */
  type Money = int

  datatype TourStatus = Draft | Published

  datatype Tour = Tour(
    id: ObjectId,
    guideId: UserId,
    name: string,
    description: string,
    difficulty: string,
    tags: seq<string>,
    status: TourStatus,
    price: Money,
    isPublished: bool,
    publishedAt: Option<Time>,
    createdAt: Time)

  datatype KeyPoint = KeyPoint(
    id: ObjectId,
    tourId: ObjectId,
    latitude: real,
    longitude: real,
    name: string,
    description: string,
    image: string,
    order: int)

  datatype Position = Position(touristId: UserId, latitude: real, longitude: real, updatedAt: Time)

  /** A cart line: the tour's name and price as they were when it was added. */
  datatype CartItem = CartItem(tourId: ObjectId, tourName: string, price: Money)

  datatype ShoppingCart = ShoppingCart(id: ObjectId, touristId: UserId, items: seq<CartItem>, totalPrice: Money)

  /** `token` stands for the fresh uuid string of the purchase. */
  datatype PurchaseToken = PurchaseToken(id: ObjectId, touristId: UserId, tourId: ObjectId, token: nat, purchasedAt: Time)

  datatype ExecutionStatus = Active | Completed | Abandoned

  datatype CompletedKeypoint = CompletedKeypoint(keypointId: ObjectId, completedAt: Time)

  datatype TourExecution = TourExecution(
    id: ObjectId,
    touristId: UserId,
    tourId: ObjectId,
    status: ExecutionStatus,
    startedAt: Time,
    completedAt: Option<Time>,
    lastActivity: Time,
    startLatitude: real,
    startLongitude: real,
    completedKeypoints: seq<CompletedKeypoint>)

  /** The business failures the handlers report with `Success: false`. */
  datatype TourError =
    | InvalidId            // "Invalid tour ID" / "Invalid execution ID"
    | TourNotFound
    | Unauthorized
    | NotPublished         // "Cannot add unpublished tour to cart"
    | AlreadyInCart
    | CartEmpty
    | NotPurchased         // "Tour not purchased. Please buy the tour first."
    | ExecutionNotFound
    | PositionNotFound
}
