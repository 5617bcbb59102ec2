/** The bodies of the documents held in the `bistroDb` collections. Prices are
    whole cents (the server keeps JavaScript numbers). */
module Entities {
  import opened Documents

  /** The one role value the admin checks accept. */
  const AdminRole: string := "admin"

  /** A `users` document: the email key, a display name and an optional role
      (absent for a plain account). */
  datatype User = User(email: string, name: string, role: Option<string>)

  /** A `menu` document as far as the analytics read it. */
  datatype MenuItem = MenuItem(name: string, category: string, price: int)

  /** A `carts` document: the owner's email and the menu item it orders. */
  datatype CartItem = CartItem(email: string, menuItemId: Id, price: int)

  /** A `payments` document: stored verbatim from the checkout payload. The
      settled cart ids are optional: nothing checks the payload before it is
      stored. */
  datatype Payment = Payment(
    email: string,
    price: int,
    transactionId: string,
    date: string,
    menuItemIds: seq<Id>,
    cartIds: Option<seq<Id>>)
}
