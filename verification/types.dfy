/**
 * The records and enumerations of the storefront. Money is held in integer
 * cents, a product's aggregate rating in tenths of a star, a review's rating
 * in whole stars.
 */
module Types {
  import opened Wrappers

  datatype OrderStatus = Processing | Shipped | Delivered | Cancelled

  datatype ReviewStatus = Approved | Pending | Rejected

  datatype UserRole = Customer | Admin | SuperAdmin

  datatype Review = Review(
    id: int,
    productId: int,
    author: string,
    rating: int,
    comment: string,
    date: string,
    status: ReviewStatus)

  datatype Product = Product(
    id: int,
    name: string,
    category: string,
    priceCents: int,
    imageUrl: string,
    description: string,
    ratingTenths: int,
    reviews: seq<Review>,
    stock: int,
    manufacturingDate: string)

  /** A cart line: a snapshot of the product taken when it was first added, and a quantity. */
  datatype CartItem = CartItem(product: Product, quantity: int)

  datatype Address = Address(
    fullName: string,
    street: string,
    city: string,
    state: string,
    zip: string,
    country: string,
    phone: string)

  datatype User = User(
    id: int,
    name: string,
    email: string,
    password: Option<string>,
    role: UserRole,
    address: Option<Address>,
    createdAt: string)

  /** An order line; the product is the catalog entry found for the cart line's id, if any. */
  datatype OrderItem = OrderItem(product: Option<Product>, quantity: int)

  datatype Carrier = Carrier(name: string, trackingUrl: string)

  datatype Order = Order(
    id: string,
    customerId: int,
    customerName: string,
    date: string,
    status: OrderStatus,
    items: seq<OrderItem>,
    totalCents: int,
    shippingAddress: Address,
    carrier: Option<Carrier>,
    trackingNumber: Option<string>,
    estimatedDelivery: Option<string>)

  /** The shop's facet filters: a category label or "All", a price ceiling in cents, a rating floor in tenths. */
  datatype FilterState = FilterState(category: string, priceCents: int, ratingTenths: int)

  /** The sort selector's options; the shop passes the choice along but never reorders by it. */
  datatype SortKey = Featured | PriceAsc | PriceDesc | RatingDesc | NameAsc
}
