/** The analytics engine: read-only aggregations over the payments ledger.
    Revenue is the `$group`/`$sum` of `/admin-stats`; order statistics are the
    `$unwind`/`$lookup`/`$unwind`/`$group`/`$project` pipeline of
    `/order-stats`, joined against the menu. */
module Analytics {
  import opened Documents
  import opened Entities

  // ---------------------------------------------------------------- revenue

  /** `$sum: '$price'` over a run of payments. */
  function SumPrices(payments: seq<Doc<Payment>>): (r: int)
    ensures (forall d :: d in payments ==> d.body.price >= 0) ==> r >= 0
  {
    if payments == [] then 0 else payments[0].body.price + SumPrices(payments[1..])
  }

  /** `$group: {_id: null, totalRevenue: {$sum: '$price'}}`: one group when
      the ledger holds any payment, no group at all when it is empty. */
  function RevenueGroups(payments: seq<Doc<Payment>>): (r: seq<int>)
    ensures |r| <= 1
    ensures r == [] <==> payments == []
  {
    if payments == [] then [] else [SumPrices(payments)]
  }

  /** `result.length > 0 ? result[0].totalRevenue : 0`. */
  function Revenue(payments: seq<Doc<Payment>>): (r: int)
    ensures payments == [] ==> r == 0
    ensures r == SumPrices(payments)
  {
    var result := RevenueGroups(payments);
    if |result| > 0 then result[0] else 0
  }

  /** Revenue adds up over any split of the ledger; an empty ledger earns 0. */
  lemma {:induction false} RevenueConcat(a: seq<Doc<Payment>>, b: seq<Doc<Payment>>)
    ensures Revenue([]) == 0
    ensures Revenue(a + b) == Revenue(a) + Revenue(b)
  {
    if a == [] {
      assert a + b == b;
    } else {
      assert (a + b)[0] == a[0] && (a + b)[1..] == a[1..] + b;
      RevenueConcat(a[1..], b);
    }
  }

  /** Recording one more payment raises revenue by exactly its price. */
  lemma RevenueAfterPayment(payments: seq<Doc<Payment>>, d: Doc<Payment>)
    ensures Revenue(payments + [d]) == Revenue(payments) + d.body.price
  {
    RevenueConcat(payments, [d]);
    assert [d][1..] == [];
    assert SumPrices([d]) == d.body.price + SumPrices([]);
  }

  // ------------------------------------------------------------ order stats

  /** One output document: `{category, quantity, revenue}`. */
  datatype CategoryStat = CategoryStat(category: string, quantity: nat, revenue: int)

  /** `$unwind: '$menuItemIds'`: one row per (payment, menu item id) pair;
      only the id is read by later stages. */
  function Unwind(payments: seq<Doc<Payment>>): (r: seq<Id>)
    ensures forall id :: id in r <==> exists d :: d in payments && id in d.body.menuItemIds
  {
    if payments == [] then [] else payments[0].body.menuItemIds + Unwind(payments[1..])
  }

  /** `$lookup` on `_id` followed by `$unwind: '$menuItems'` for one row: one
      row per menu document with that id, none when nothing matches. */
  function Matches(menu: seq<Doc<MenuItem>>, id: Id): (r: seq<MenuItem>)
    ensures |r| <= |menu|
    ensures forall m :: m in r <==> exists d :: d in menu && d.id == id && d.body == m
  {
    if menu == [] then []
    else (if menu[0].id == id then [menu[0].body] else []) + Matches(menu[1..], id)
  }

  /** The joined rows of the pipeline, in order. */
  function Joined(ids: seq<Id>, menu: seq<Doc<MenuItem>>): (r: seq<MenuItem>)
    ensures forall m :: m in r <==> exists id :: id in ids && m in Matches(menu, id)
  {
    if ids == [] then []
    else
      var r := Matches(menu, ids[0]) + Joined(ids[1..], menu);
      assert forall m :: m in r <==> exists id :: id in ids && m in Matches(menu, id) by {
        forall m ensures m in r <==> exists id :: id in ids && m in Matches(menu, id) {
          if m in Matches(menu, ids[0]) {
            assert ids[0] in ids;
          }
          if exists id :: id in ids && m in Matches(menu, id) {
            var id :| id in ids && m in Matches(menu, id);
            if id != ids[0] {
              assert id in ids[1..];
            }
          }
        }
      }
      r
  }

  /** `quantity: {$sum: 1}` for one category. */
  function CountIn(rows: seq<MenuItem>, category: string): nat
  {
    if rows == [] then 0
    else CountIn(rows[..|rows| - 1], category) + (if rows[|rows| - 1].category == category then 1 else 0)
  }

  /** `revenue: {$sum: '$menuItems.price'}` for one category. */
  function SumIn(rows: seq<MenuItem>, category: string): int
  {
    if rows == [] then 0
    else SumIn(rows[..|rows| - 1], category) + (if rows[|rows| - 1].category == category then rows[|rows| - 1].price else 0)
  }

  function Categories(stats: seq<CategoryStat>): (r: seq<string>)
    ensures |r| == |stats|
    ensures forall i :: 0 <= i < |stats| ==> r[i] == stats[i].category
  {
    seq(|stats|, i requires 0 <= i < |stats| => stats[i].category)
  }

  ghost predicate Distinct(s: seq<string>)
  {
    forall i, j :: 0 <= i < |s| && 0 <= j < |s| && s[i] == s[j] ==> i == j
  }

  /** Fold one joined row into the groups: bump the group of its category,
      or open a new group for a category not seen before. */
  function AddRow(stats: seq<CategoryStat>, row: MenuItem): (r: seq<CategoryStat>)
    ensures Categories(r) ==
      if row.category in Categories(stats) then Categories(stats) else Categories(stats) + [row.category]
    ensures forall i :: 0 <= i < |stats| ==>
      r[i] == if stats[i].category == row.category
              then CategoryStat(row.category, stats[i].quantity + 1, stats[i].revenue + row.price)
              else stats[i]
    ensures |r| > |stats| ==> r[|stats|] == CategoryStat(row.category, 1, row.price)
  {
    var cs := Categories(stats);
    if row.category in cs then
      var r := seq(|stats|, i requires 0 <= i < |stats| =>
        if stats[i].category == row.category
        then CategoryStat(row.category, stats[i].quantity + 1, stats[i].revenue + row.price)
        else stats[i]);
      assert Categories(r) == cs;
      r
    else
      var r := stats + [CategoryStat(row.category, 1, row.price)];
      assert Categories(r) == cs + [row.category];
      r
  }

  /** A category no row has contributes no revenue. */
  lemma {:induction false} SumInAbsent(rows: seq<MenuItem>, c: string)
    requires CountIn(rows, c) == 0
    ensures SumIn(rows, c) == 0
  {
    if rows != [] {
      SumInAbsent(rows[..|rows| - 1], c);
    }
  }

  /** `$group` by category over the joined rows, followed by the `$project`
      that renames `_id` to `category`: each category at most once, present
      exactly when some row has it, with that category's row count and price
      total. Groups come out in first-appearance order; the store itself
      promises no order. */
  function Group(rows: seq<MenuItem>): (r: seq<CategoryStat>)
    ensures GroupedFrom(rows, r)
  {
    if rows == [] then []
    else
      var prefix := rows[..|rows| - 1];
      var stats := Group(prefix);
      AddRowGroups(prefix, stats, rows[|rows| - 1]);
      assert prefix + [rows[|rows| - 1]] == rows;
      AddRow(stats, rows[|rows| - 1])
  }

  /** `stats` is the grouping of `rows`: each category at most once, present
      exactly when some row has it, with that category's row count and price
      total. */
  ghost predicate GroupedFrom(rows: seq<MenuItem>, stats: seq<CategoryStat>)
  {
    && Distinct(Categories(stats))
    && (forall c :: c in Categories(stats) <==> CountIn(rows, c) > 0)
    && (forall i :: 0 <= i < |stats| ==>
          stats[i].quantity == CountIn(rows, stats[i].category) &&
          stats[i].revenue == SumIn(rows, stats[i].category))
  }

  /** Appending a row adds to its own category's count and total only. */
  lemma CountInSnoc(rows: seq<MenuItem>, row: MenuItem, c: string)
    ensures CountIn(rows + [row], c) == CountIn(rows, c) + (if row.category == c then 1 else 0)
    ensures SumIn(rows + [row], c) == SumIn(rows, c) + (if row.category == c then row.price else 0)
  {
    assert (rows + [row])[..|rows|] == rows;
  }

  /** Folding one more row into a grouping gives the grouping of the longer run. */
  lemma AddRowGroups(rows: seq<MenuItem>, stats: seq<CategoryStat>, row: MenuItem)
    requires GroupedFrom(rows, stats)
    ensures GroupedFrom(rows + [row], AddRow(stats, row))
  {
    var rows' := rows + [row];
    var r := AddRow(stats, row);
    var cs, cr := Categories(stats), Categories(r);
    forall c ensures CountIn(rows', c) == CountIn(rows, c) + (if row.category == c then 1 else 0)
      && SumIn(rows', c) == SumIn(rows, c) + (if row.category == c then row.price else 0)
    {
      CountInSnoc(rows, row, c);
    }
    if row.category !in cs {
      assert cr == cs + [row.category];
      assert Distinct(cr) by {
        forall i, j | 0 <= i < |cr| && 0 <= j < |cr| && cr[i] == cr[j] ensures i == j {
          if i < |cs| && j < |cs| { assert cs[i] == cs[j]; }
        }
      }
      assert CountIn(rows, row.category) == 0;
      SumInAbsent(rows, row.category);
      forall i | 0 <= i < |r| ensures
        r[i].quantity == CountIn(rows', r[i].category) && r[i].revenue == SumIn(rows', r[i].category)
      {
        if i < |stats| {
          assert cs[i] == stats[i].category && r[i] == stats[i];
        }
      }
    } else {
      assert cr == cs;
      forall i | 0 <= i < |r| ensures
        r[i].quantity == CountIn(rows', r[i].category) && r[i].revenue == SumIn(rows', r[i].category)
      {
        assert cs[i] == stats[i].category;
      }
    }
  }

  /** The `/order-stats` pipeline. */
  function OrderStats(payments: seq<Doc<Payment>>, menu: seq<Doc<MenuItem>>): (r: seq<CategoryStat>)
    ensures GroupedFrom(Joined(Unwind(payments), menu), r)
    ensures payments == [] ==> r == []
  {
    Group(Joined(Unwind(payments), menu))
  }

  // ------------------------------------------ reference meaning of the stats

  /** The menu item an id refers to: the menu document with that `_id`. */
  function Resolve(menu: seq<Doc<MenuItem>>, id: Id): (r: Option<MenuItem>)
    ensures r.None? <==> forall d :: d in menu ==> d.id != id
  {
    match FindFirst(menu, (d: Doc<MenuItem>) => d.id == id)
    case Some(d) => Some(d.body)
    case None => None
  }

  /** Number of (payment, menu item id) pairs whose id names a menu item of
      the category. */
  function RefQuantity(ids: seq<Id>, menu: seq<Doc<MenuItem>>, category: string): nat
  {
    if ids == [] then 0
    else
      var m := Resolve(menu, ids[0]);
      (if m.Some? && m.value.category == category then 1 else 0) + RefQuantity(ids[1..], menu, category)
  }

  /** Total menu price of the pairs counted by `RefQuantity`. */
  function RefRevenue(ids: seq<Id>, menu: seq<Doc<MenuItem>>, category: string): int
  {
    if ids == [] then 0
    else
      var m := Resolve(menu, ids[0]);
      (if m.Some? && m.value.category == category then m.value.price else 0) + RefRevenue(ids[1..], menu, category)
  }

  lemma {:induction false} CountInConcat(a: seq<MenuItem>, b: seq<MenuItem>, c: string)
    ensures CountIn(a + b, c) == CountIn(a, c) + CountIn(b, c)
    ensures SumIn(a + b, c) == SumIn(a, c) + SumIn(b, c)
    decreases |b|
  {
    if b == [] {
      assert a + b == a;
    } else {
      var b' := b[..|b| - 1];
      assert (a + b)[..|a + b| - 1] == a + b';
      CountInConcat(a, b', c);
    }
  }

  /** With a unique primary key, the lookup yields the referenced item alone,
      or nothing for a dangling reference. */
  lemma {:induction false} MatchesResolve(menu: seq<Doc<MenuItem>>, id: Id)
    requires UniqueIds(menu)
    ensures Matches(menu, id) == match Resolve(menu, id) case Some(m) => [m] case None => []
  {
    if menu != [] {
      var t := menu[1..];
      assert UniqueIds(t) by {
        forall i, j | 0 <= i < |t| && 0 <= j < |t| && t[i].id == t[j].id ensures i == j {
          assert menu[i + 1].id == menu[j + 1].id;
        }
      }
      MatchesResolve(t, id);
      if menu[0].id == id {
        forall d | d in t ensures d.id != id {
          var k :| 0 <= k < |t| && t[k] == d;
          assert menu[k + 1] == d;
        }
      } else {
        assert Resolve(menu, id) == Resolve(t, id) by {
          assert IndexWhere(menu, (d: Doc<MenuItem>) => d.id == id) == 1 + IndexWhere(t, (d: Doc<MenuItem>) => d.id == id);
        }
      }
    }
  }

  lemma {:induction false} JoinedCounts(ids: seq<Id>, menu: seq<Doc<MenuItem>>, c: string)
    requires UniqueIds(menu)
    ensures CountIn(Joined(ids, menu), c) == RefQuantity(ids, menu, c)
    ensures SumIn(Joined(ids, menu), c) == RefRevenue(ids, menu, c)
  {
    if ids != [] {
      var head := Matches(menu, ids[0]);
      JoinedCounts(ids[1..], menu, c);
      CountInConcat(head, Joined(ids[1..], menu), c);
      MatchesResolve(menu, ids[0]);
      if head != [] {
        assert head[..0] == [];
      }
    }
  }

  /** What `/order-stats` reports: for each category at most one entry, an
      entry exactly for the categories some paid menu item id resolves to,
      with the number of such ids as quantity and their menu prices summed as
      revenue. */
  lemma OrderStatsMeaning(payments: seq<Doc<Payment>>, menu: seq<Doc<MenuItem>>)
    requires UniqueIds(menu)
    ensures var r, ids := OrderStats(payments, menu), Unwind(payments);
      && Distinct(Categories(r))
      && (forall c :: c in Categories(r) <==> RefQuantity(ids, menu, c) > 0)
      && (forall i :: 0 <= i < |r| ==>
            r[i].quantity == RefQuantity(ids, menu, r[i].category) &&
            r[i].revenue == RefRevenue(ids, menu, r[i].category))
  {
    var ids := Unwind(payments);
    forall c {
      JoinedCounts(ids, menu, c);
    }
  }

  lemma {:induction false} UnwindConcat(a: seq<Doc<Payment>>, b: seq<Doc<Payment>>)
    ensures Unwind(a + b) == Unwind(a) + Unwind(b)
  {
    if a == [] {
      assert a + b == b;
    } else {
      assert (a + b)[0] == a[0] && (a + b)[1..] == a[1..] + b;
      UnwindConcat(a[1..], b);
    }
  }

  lemma {:induction false} JoinedConcat(a: seq<Id>, b: seq<Id>, menu: seq<Doc<MenuItem>>)
    ensures Joined(a + b, menu) == Joined(a, menu) + Joined(b, menu)
  {
    if a == [] {
      assert a + b == b;
    } else {
      assert (a + b)[0] == a[0] && (a + b)[1..] == a[1..] + b;
      JoinedConcat(a[1..], b, menu);
    }
  }

  lemma {:induction false} MatchesNone(menu: seq<Doc<MenuItem>>, id: Id)
    requires Resolve(menu, id).None?
    ensures Matches(menu, id) == []
  {
    if menu != [] {
      assert menu[0] in menu;
      MatchesNone(menu[1..], id);
    }
  }

  lemma {:induction false} JoinedDangling(ids: seq<Id>, menu: seq<Doc<MenuItem>>)
    requires forall id :: id in ids ==> Resolve(menu, id).None?
    ensures Joined(ids, menu) == []
  {
    if ids != [] {
      MatchesNone(menu, ids[0]);
      JoinedDangling(ids[1..], menu);
    }
  }

  /** A payment whose menu item ids all dangle (no menu document has them)
      leaves the order statistics unchanged: its rows are dropped, not
      reported and not an error. */
  lemma DanglingPaymentIgnored(payments: seq<Doc<Payment>>, menu: seq<Doc<MenuItem>>, d: Doc<Payment>)
    requires forall id :: id in d.body.menuItemIds ==> Resolve(menu, id).None?
    ensures OrderStats(payments + [d], menu) == OrderStats(payments, menu)
  {
    var ids := Unwind(payments);
    UnwindConcat(payments, [d]);
    assert [d][1..] == [];
    assert Unwind([d]) == d.body.menuItemIds + Unwind([]);
    assert Unwind([d]) == d.body.menuItemIds;
    JoinedConcat(ids, d.body.menuItemIds, menu);
    JoinedDangling(d.body.menuItemIds, menu);
    assert Joined(ids + d.body.menuItemIds, menu) == Joined(ids, menu);
  }
}
