/** The server's collections and the route handlers of the core: the account
    directory writes, the cart store, the checkout commit and the guarded
    read routes (admin status, payment history, revenue, order statistics).
    The document store is an in-memory object whose fields are the
    collections; `nextId` stands for the store's id generator. */
module Server {
  import opened Documents
  import opened Entities
  import opened Accounts
  import opened Auth
  import opened Analytics

  /** The acknowledgment `updateOne` returns. */
  datatype UpdateResult = UpdateResult(matchedCount: nat, modifiedCount: nat)

  /** `GET /payments/:email` once `verifyToken` has passed: 403 unless the path
      email is the caller's own, and then exactly that payer's payments. */
  function PaymentHistory(payments: seq<Doc<Payment>>, email: string, claims: Claims): (r: Response<seq<Doc<Payment>>>)
    ensures r.Deny? <==> email != claims.email
    ensures r.Deny? ==> r == Deny(403, ForbiddenAccess)
    ensures r.Ok? ==> forall d :: d in r.value <==> d in payments && d.body.email == email
  {
    if email != claims.email then Deny(403, ForbiddenAccess)
    else Ok(Select(payments, PaidBy(email)))
  }

  /** The filter `{email}` on the payments collection. */
  function PaidBy(email: string): Doc<Payment> -> bool
  {
    (d: Doc<Payment>) => d.body.email == email
  }

  /** A newly recorded payment is appended to its payer's history and to no
      one else's; everything already there stays, in order. */
  lemma HistoryAfterPayment(payments: seq<Doc<Payment>>, d: Doc<Payment>, claims: Claims)
    ensures PaymentHistory(payments + [d], claims.email, claims) ==
      Ok(PaymentHistory(payments, claims.email, claims).value + (if d.body.email == claims.email then [d] else []))
  {
    var p := PaidBy(claims.email);
    SelectAppend(payments, [d], p);
    assert [d][1..] == [];
    assert Select([d], p) == if d.body.email == claims.email then [d] else [];
    assert PaymentHistory(payments + [d], claims.email, claims) == Ok(Select(payments + [d], p));
    assert PaymentHistory(payments, claims.email, claims) == Ok(Select(payments, p));
  }

  class Database {
    var users: seq<Doc<User>>
    var menu: seq<Doc<MenuItem>>
    var carts: seq<Doc<CartItem>>
    var payments: seq<Doc<Payment>>
    var nextId: Id

    /** Every collection has a unique primary key, `nextId` is fresh for the
        collections the core inserts into, and no two accounts share an email. */
    ghost predicate Valid()
      reads this
    {
      && UniqueIds(users) && UniqueIds(menu) && UniqueIds(carts) && UniqueIds(payments)
      && IdsBelow(users, nextId) && IdsBelow(carts, nextId) && IdsBelow(payments, nextId)
      && UniqueEmails(users)
    }

    /** An empty store over a given menu catalog. */
    constructor (catalog: seq<Doc<MenuItem>>)
      requires UniqueIds(catalog)
      ensures Valid()
      ensures users == [] && menu == catalog && carts == [] && payments == []
    {
      users, menu, carts, payments := [], catalog, [], [];
      nextId := 0;
    }

    /** `POST /users`: insert the account unless one with its email exists;
        `insertedId` is null in that case. Either way exactly one account
        with that email exists afterwards. */
    method RegisterUser(u: User) returns (insertedId: Option<Id>)
      requires Valid()
      modifies this
      ensures Valid()
      ensures users == Register(old(users), old(nextId), u)
      ensures insertedId.None? <==> FindUser(old(users), u.email).Some?
      ensures insertedId.Some? ==> insertedId.value == old(nextId)
      ensures exists d :: d in users && d.body.email == u.email
      ensures menu == old(menu) && carts == old(carts) && payments == old(payments)
    {
      RegisterKeepsEmailsUnique(users, nextId, u);
      var existing := FindUser(users, u.email);
      if existing.Some? {
        insertedId := None;
        return;
      }
      AppendFresh(users, Doc(nextId, u), nextId);
      users := users + [Doc(nextId, u)];
      insertedId := Some(nextId);
      nextId := nextId + 1;
    }

    /** `PATCH /users/admin/:id` behind `verifyToken` and `verifyAdmin`: on a
        denial nothing changes; otherwise the record with that id, if any,
        gets role "admin" and nothing else changes. */
    method MakeAdmin(header: Option<string>, verify: string -> Option<Claims>, id: Id)
      returns (r: Response<UpdateResult>)
      requires Valid()
      modifies this
      ensures Valid()
      ensures r.Deny? <==> AdminGate(header, verify, old(users)).Deny?
      ensures r.Deny? ==> r.status == AdminGate(header, verify, old(users)).status
      ensures r.Deny? ==> users == old(users)
      ensures r.Ok? ==> users == Promote(old(users), id)
      ensures r.Ok? ==> (r.value.matchedCount == 1 <==> exists d :: d in old(users) && d.id == id)
      ensures r.Ok? ==> r.value.modifiedCount <= r.value.matchedCount <= 1
      ensures menu == old(menu) && carts == old(carts) && payments == old(payments) && nextId == old(nextId)
    {
      var gate := AdminGate(header, verify, users);
      if gate.Deny? {
        r := Deny(gate.status, gate.message);
        return;
      }
      var k := IndexWhere(users, (d: Doc<User>) => d.id == id);
      PromoteFirstMatch(users, id);
      PromoteKeepsEmailsUnique(users, id);
      var promoted := Promote(users, id);
      assert UniqueIds(promoted) by {
        forall i, j | 0 <= i < |promoted| && 0 <= j < |promoted| && promoted[i].id == promoted[j].id
          ensures i == j
        {
          assert users[i].id == users[j].id;
        }
      }
      assert IdsBelow(promoted, nextId) by {
        forall d | d in promoted ensures d.id < nextId {
          var i :| 0 <= i < |promoted| && promoted[i] == d;
          assert users[i] in users;
        }
      }
      if k < |users| {
        var before := users[k];
        users := users[k := before.(body := before.body.(role := Some(AdminRole)))];
        r := Ok(UpdateResult(1, if before.body.role == Some(AdminRole) then 0 else 1));
      } else {
        r := Ok(UpdateResult(0, 0));
      }
    }

    /** `GET /users/admin/:email` behind `verifyToken`. */
    function AdminStatusRoute(header: Option<string>, verify: string -> Option<Claims>, email: string): (r: Response<bool>)
      reads this
      ensures VerifyToken(header, verify).Deny? ==> r == Deny(401, ForbiddenAccess)
      ensures VerifyToken(header, verify).Ok? ==>
        (r.Deny? <==> email != VerifyToken(header, verify).value.email)
      ensures VerifyToken(header, verify).Ok? && email != VerifyToken(header, verify).value.email ==>
        r == Deny(403, UnauthorizedAccess)
      ensures r.Ok? ==> (r.value <==> IsAdmin(users, email))
    {
      var directory := users;
      Then(VerifyToken(header, verify), (claims: Claims) => AdminStatus(directory, email, claims))
    }

    /** `GET /carts?email=`: the cart items owned by that email, unguarded. */
    function CartsRoute(email: string): (r: seq<Doc<CartItem>>)
      reads this
      ensures forall d :: d in r ==> d in carts && d.body.email == email
      ensures forall d :: d in carts && d.body.email == email ==> d in r
    {
      Select(carts, (d: Doc<CartItem>) => d.body.email == email)
    }

    /** `POST /carts`: store a cart item under a fresh id. */
    method AddCartItem(item: CartItem) returns (insertedId: Id)
      requires Valid()
      modifies this
      ensures Valid()
      ensures insertedId == old(nextId)
      ensures carts == old(carts) + [Doc(insertedId, item)]
      ensures users == old(users) && menu == old(menu) && payments == old(payments)
    {
      AppendFresh(carts, Doc(nextId, item), nextId);
      insertedId := nextId;
      carts := carts + [Doc(insertedId, item)];
      nextId := nextId + 1;
    }

    /** `DELETE /carts/:id`: remove the cart item with that id, if any. */
    method DeleteCartItem(id: Id) returns (deletedCount: nat)
      requires Valid()
      modifies this`carts
      ensures Valid()
      ensures carts == WithoutIds(old(carts), [id])
      ensures deletedCount == |old(carts)| - |carts|
      ensures deletedCount == if exists d :: d in old(carts) && d.id == id then 1 else 0
    {
      var before := carts;
      RemoveFirstById(before, id);
      SelectUniqueIds(before, (d: Doc<CartItem>) => d.id !in [id]);
      carts := RemoveFirst(before, (d: Doc<CartItem>) => d.id == id);
      deletedCount := |before| - |carts|;
    }

    /** First step of `POST /payments`: append the payload to the ledger,
        verbatim, under a fresh id; the carts are not yet touched. */
    method RecordPayment(p: Payment) returns (insertedId: Id)
      requires Valid()
      modifies this
      ensures Valid()
      ensures insertedId == old(nextId)
      ensures payments == old(payments) + [Doc(insertedId, p)]
      ensures users == old(users) && menu == old(menu) && carts == old(carts)
    {
      AppendFresh(payments, Doc(nextId, p), nextId);
      insertedId := nextId;
      payments := payments + [Doc(insertedId, p)];
      nextId := nextId + 1;
    }

    /** Second step of `POST /payments`: `deleteMany` of every cart item whose
        id is listed, whoever owns it; listed ids that are absent are ignored. */
    method PurgeCarts(cartIds: seq<Id>) returns (deletedCount: nat)
      requires Valid()
      modifies this`carts
      ensures Valid()
      ensures carts == WithoutIds(old(carts), cartIds)
      ensures deletedCount == |old(carts)| - |carts|
    {
      var before := carts;
      SelectUniqueIds(before, (d: Doc<CartItem>) => d.id !in cartIds);
      carts := WithoutIds(before, cartIds);
      deletedCount := |before| - |carts|;
    }

    /** `POST /payments`: record the payment first, then purge the settled
        cart items. The ledger grows by exactly the payload; no listed cart
        item remains; every other cart item stays. A payload without
        `cartIds` makes the purge step throw after the payment is stored:
        no acknowledgment, and the carts are left as they were. */
    method CommitPayment(p: Payment) returns (paymentId: Id, deletedCount: Option<nat>)
      requires Valid()
      modifies this
      ensures Valid()
      ensures payments == old(payments) + [Doc(paymentId, p)]
      ensures p.cartIds.None? ==> deletedCount.None? && carts == old(carts)
      ensures p.cartIds.Some? ==> carts == WithoutIds(old(carts), p.cartIds.value)
      ensures p.cartIds.Some? ==> forall d :: d in carts ==> d.id !in p.cartIds.value
      ensures p.cartIds.Some? ==> forall d :: d in old(carts) && d.id !in p.cartIds.value ==> d in carts
      ensures p.cartIds.Some? ==> deletedCount == Some(|old(carts)| - |carts|)
      ensures users == old(users) && menu == old(menu)
    {
      paymentId := RecordPayment(p);
      if p.cartIds.None? {
        deletedCount := None;
        return;
      }
      var n := PurgeCarts(p.cartIds.value);
      deletedCount := Some(n);
    }

    /** `GET /payments/:email` behind `verifyToken`. */
    function PaymentsRoute(header: Option<string>, verify: string -> Option<Claims>, email: string)
      : (r: Response<seq<Doc<Payment>>>)
      reads this
      ensures VerifyToken(header, verify).Deny? ==> r == Deny(401, ForbiddenAccess)
      ensures VerifyToken(header, verify).Ok? && email != VerifyToken(header, verify).value.email ==>
        r == Deny(403, ForbiddenAccess)
      ensures VerifyToken(header, verify).Ok? && email == VerifyToken(header, verify).value.email ==> r.Ok?
      ensures r.Ok? ==> forall d :: d in r.value <==> d in payments && d.body.email == email
    {
      var ledger := payments;
      Then(VerifyToken(header, verify), (claims: Claims) => PaymentHistory(ledger, email, claims))
    }

    /** The revenue field of `GET /admin-stats`, behind both guards. */
    function RevenueRoute(header: Option<string>, verify: string -> Option<Claims>): (r: Response<int>)
      reads this
      ensures VerifyToken(header, verify).Deny? ==> r == Deny(401, ForbiddenAccess)
      ensures r.Ok? ==> VerifyToken(header, verify).Ok? && IsAdmin(users, VerifyToken(header, verify).value.email)
      ensures r.Deny? <==> AdminGate(header, verify, users).Deny?
      ensures r.Deny? ==> r.status == AdminGate(header, verify, users).status
      ensures VerifyToken(header, verify).Ok? && !IsAdmin(users, VerifyToken(header, verify).value.email) ==>
        r == Deny(403, ForbiddenAccess)
      ensures VerifyToken(header, verify).Ok? && IsAdmin(users, VerifyToken(header, verify).value.email) ==>
        r == Ok(SumPrices(payments))
      ensures r.Ok? ==> r.value == SumPrices(payments)
    {
      var ledger := payments;
      Then(AdminGate(header, verify, users), (claims: Claims) => Ok(Revenue(ledger)))
    }

    /** `GET /order-stats`, behind both guards. */
    function OrderStatsRoute(header: Option<string>, verify: string -> Option<Claims>): (r: Response<seq<CategoryStat>>)
      reads this
      ensures VerifyToken(header, verify).Deny? ==> r == Deny(401, ForbiddenAccess)
      ensures r.Ok? ==> VerifyToken(header, verify).Ok? && IsAdmin(users, VerifyToken(header, verify).value.email)
      ensures r.Deny? <==> AdminGate(header, verify, users).Deny?
      ensures r.Deny? ==> r.status == AdminGate(header, verify, users).status
      ensures VerifyToken(header, verify).Ok? && !IsAdmin(users, VerifyToken(header, verify).value.email) ==>
        r == Deny(403, ForbiddenAccess)
      ensures VerifyToken(header, verify).Ok? && IsAdmin(users, VerifyToken(header, verify).value.email) ==>
        r.Ok? && GroupedFrom(Joined(Unwind(payments), menu), r.value)
      ensures r.Ok? ==> GroupedFrom(Joined(Unwind(payments), menu), r.value)
    {
      var ledger, catalog := payments, menu;
      Then(AdminGate(header, verify, users), (claims: Claims) => Ok(OrderStats(ledger, catalog)))
    }
  }
}
